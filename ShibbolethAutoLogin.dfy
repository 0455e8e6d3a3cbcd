/** The auto-login hook (`ShibbolethAutoLogin`): on each request it turns the
    identity the filter left in the HTTP session into a portal user, finding,
    updating, creating or importing that user, synchronises the user's roles
    with the affiliation, and hands the portal the user's credentials.

    The functions below say what each step does to the stored users, roles
    and assignments; the class `AutoLogin` holds those stores and runs the
    steps as the source does, each method proved against its function. */
module ShibbolethAutoLogin {
  import opened JavaLang
  import opened Validator
  import opened Servlet
  import opened ShibbolethConfig
  import opened PortalServices

  // `CompanyConstants.AUTH_TYPE_*`: what a company's users log in with.
  const AUTH_TYPE_EA := "emailAddress"
  const AUTH_TYPE_SN := "screenName"

  /** `RoleConstants.TYPE_REGULAR`, the type given to auto-created roles. */
  const ROLE_TYPE_REGULAR := 1

  /** What `UserImporter.importUser` does: returns a user, returns null, throws
      a `SystemException` (which the hook swallows), throws a
      `NoSuchUserException` (which `login` turns into null credentials) or
      throws anything else. */
  datatype ImportResult = Imported(user: User) | NotImported | ImportSystemFailure | ImportNoSuchUser | ImportFailure

  /** What the hook takes from outside the session: the company of the
      request, its configuration, the company's authentication type, the
      directory importer (called with company id, e-mail address and screen
      name) and the password `addUser` generates. */
  datatype Context = Context(companyId: int, config: Configuration, authType: string,
                             importer: (int, string, string) -> ImportResult,
                             generatedPassword: string)

  // ---------------------------------------------------------------------------
  // Creating a user (createUserFromSession, addUser)
  // ---------------------------------------------------------------------------

  /** The arguments `addUser` passes to the user service: the four session
      values, an automatic password, the given screen name, no e-mail, and
      fixed defaults for everything else (US locale, male, born 1 January
      1970, no prefix, suffix, middle name, job title or OpenID). */
  function AddUserArguments(companyId: int, screenName: string, emailAddress: string,
                            firstName: string, lastName: string): AddUserRequest
  {
    AddUserRequest(0, companyId, true, None, None, false, screenName, emailAddress, 0, "", "en_US",
                   firstName, "", lastName, 0, 0, true, 0, 1, 1970, "", false)
  }

  /** The request `createUserFromSession` makes, or None when the login, the
      e-mail, the first name or the surname in the session is null. */
  function NewUserRequest(companyId: int, session: map<string, string>): Option<AddUserRequest>
  {
    var screenName := Get(session, SHIBBOLETH_LOGIN);
    var emailAddress := Get(session, SHIBBOLETH_HEADER_EMAIL);
    var firstName := Get(session, SHIBBOLETH_HEADER_FIRSTNAME);
    var surname := Get(session, SHIBBOLETH_HEADER_SURNAME);
    if IsNull(screenName) || IsNull(emailAddress) || IsNull(firstName) || IsNull(surname) then None
    else Some(AddUserArguments(companyId, screenName.value, emailAddress.value, firstName.value, surname.value))
  }

  /** `createUserFromSession`: null (Success(None)) when a value is missing,
      otherwise whatever `addUser` returns or throws. */
  function CreateUser(p: Portal, companyId: int, session: map<string, string>, generatedPassword: string)
    : Step<Result<Option<User>>>
  {
    match NewUserRequest(companyId, session)
    case None => Step(Success(None), p)
    case Some(request) =>
      var added := AddUser(p, request, generatedPassword);
      match added.value
      case Success(user) => Step(Success(Some(user)), added.portal)
      case Failure(e) => Step(Failure(e), added.portal)
  }

  /** A user is created exactly when all four session values are present;
      the created user carries them, under the company of the request, with
      an id no stored user has, and nothing but the user store changes. A
      missing value or a rejected request leaves the stores as they were. */
  lemma CreateUserFromSessionValues(p: Portal, companyId: int, session: map<string, string>, generatedPassword: string)
    requires ValidPortal(p)
    ensures var c := CreateUser(p, companyId, session, generatedPassword);
      && ValidPortal(c.portal)
      && (c.value == Success(None) <==>
            IsNull(Get(session, SHIBBOLETH_LOGIN)) || IsNull(Get(session, SHIBBOLETH_HEADER_EMAIL))
            || IsNull(Get(session, SHIBBOLETH_HEADER_FIRSTNAME)) || IsNull(Get(session, SHIBBOLETH_HEADER_SURNAME)))
      && (c.value.Failure? ==> c.value.error == UserExistsException && c.portal == p)
      && (c.value == Success(None) ==> c.portal == p)
      && (c.value.Success? && c.value.value.Some? ==>
            var u := c.value.value.value;
            && Get(session, SHIBBOLETH_LOGIN) == Some(u.screenName)
            && Get(session, SHIBBOLETH_HEADER_EMAIL) == Some(u.emailAddress)
            && Get(session, SHIBBOLETH_HEADER_FIRSTNAME) == Some(u.firstName)
            && Get(session, SHIBBOLETH_HEADER_SURNAME) == Some(u.lastName)
            && u.companyId == companyId && u.password == generatedPassword
            && c.portal == p.(users := p.users + [u], nextUserId := p.nextUserId + 1)
            && forall v | v in p.users :: v.userId != u.userId)
  {
    match NewUserRequest(companyId, session)
    case None =>
    case Some(request) =>
      AddUserAppendsOne(p, request, generatedPassword);
  }

  /** The user service is asked for a user with an automatic password, the
      session's login as a screen name it must not replace, and no welcome
      e-mail. */
  lemma NewUserRequestSettings(companyId: int, session: map<string, string>)
    requires NewUserRequest(companyId, session).Some?
    ensures var r := NewUserRequest(companyId, session).value;
      && r.autoPassword && r.password1.None? && r.password2.None?
      && !r.autoScreenName && !r.sendEmail && r.creatorUserId == 0
      && r.companyId == companyId
      && r.locale == "en_US" && r.male && r.birthdayMonth == 0 && r.birthdayDay == 1 && r.birthdayYear == 1970
  {
  }

  // ---------------------------------------------------------------------------
  // Updating a user (updateUserFromSession)
  // ---------------------------------------------------------------------------

  /** The user after `updateUserFromSession`'s setters: each of e-mail, first
      name and last name is overwritten by a differing session value that is
      not null. */
  function SessionUpdate(user: User, session: map<string, string>): User
  {
    var emailAddress := Get(session, SHIBBOLETH_HEADER_EMAIL);
    var firstName := Get(session, SHIBBOLETH_HEADER_FIRSTNAME);
    var surname := Get(session, SHIBBOLETH_HEADER_SURNAME);
    var u1 := if !IsNull(emailAddress) && user.emailAddress != emailAddress.value
              then user.(emailAddress := emailAddress.value) else user;
    var u2 := if !IsNull(firstName) && u1.firstName != firstName.value
              then u1.(firstName := firstName.value) else u1;
    if !IsNull(surname) && u2.lastName != surname.value then u2.(lastName := surname.value) else u2
  }

  /** The value a user field ends up with: the session's when it is not null,
      the old one otherwise. */
  function Refreshed(current: string, fromSession: Option<string>): string
  {
    if IsNull(fromSession) then current else fromSession.value
  }

  /** After the update the user holds the session's e-mail and names wherever
      those are not null and keeps everything else: id, company, screen name
      and password never change. */
  lemma SessionUpdateFields(user: User, session: map<string, string>)
    ensures var u := SessionUpdate(user, session);
      && u.emailAddress == Refreshed(user.emailAddress, Get(session, SHIBBOLETH_HEADER_EMAIL))
      && u.firstName == Refreshed(user.firstName, Get(session, SHIBBOLETH_HEADER_FIRSTNAME))
      && u.lastName == Refreshed(user.lastName, Get(session, SHIBBOLETH_HEADER_SURNAME))
      && u.userId == user.userId && u.companyId == user.companyId
      && u.screenName == user.screenName && u.password == user.password
  {
  }

  /** Updating twice from the same session changes nothing the second time. */
  lemma SessionUpdateIdempotent(user: User, session: map<string, string>)
    ensures SessionUpdate(SessionUpdate(user, session), session) == SessionUpdate(user, session)
  {
    SessionUpdateFields(user, session);
    SessionUpdateFields(SessionUpdate(user, session), session);
  }

  /** `updateUserFromSession` as a step: the updated user, stored again only
      when a setter ran. */
  function UpdateUser(p: Portal, user: User, session: map<string, string>): Step<User>
  {
    var updated := SessionUpdate(user, session);
    Step(updated, if updated != user then p.(users := ReplaceUser(p.users, updated)) else p)
  }

  /** Re-storing an updated user keeps the store's keys: the ids are those
      of before, and the record under the user's id is the updated one. */
  lemma UpdateUserKeepsKeys(p: Portal, user: User, session: map<string, string>)
    requires ValidPortal(p) && user in p.users
    ensures var s := UpdateUser(p, user, session);
      && ValidPortal(s.portal)
      && |s.portal.users| == |p.users|
      && (forall i | 0 <= i < |p.users| :: s.portal.users[i].userId == p.users[i].userId)
      && (forall i | 0 <= i < |p.users| :: s.portal.users[i] == (if p.users[i] == user then s.value else p.users[i]))
      && s.portal.roles == p.roles && s.portal.userRoles == p.userRoles && s.portal.nextUserId == p.nextUserId
      && (s.portal == p <==> s.value == user)
  {
    var updated := SessionUpdate(user, session);
    assert updated.userId == user.userId by {
      SessionUpdateFields(user, session);
    }
    if updated != user {
      var users' := ReplaceUser(p.users, updated);
      var j :| 0 <= j < |p.users| && p.users[j] == user;
      forall i | 0 <= i < |p.users|
        ensures users'[i] == (if p.users[i] == user then updated else p.users[i])
      {
        if p.users[i].userId == user.userId {
          assert i == j;
        }
      }
      assert users'[j] != p.users[j];
    }
  }

  // ---------------------------------------------------------------------------
  // Roles from the affiliation (getRolesFromSession)
  // ---------------------------------------------------------------------------

  /** A role looked up or created, and the role store afterwards. */
  datatype RoleStep = RoleStep(role: Option<Role>, roles: seq<Role>)

  /** The role made for an affiliation entry the company lacks: the given id
      (which also serves as its class PK), regular type and no subtype. */
  function NewRole(roleId: int, companyId: int, name: string, classNameId: int): Role
  {
    Role(roleId, companyId, name, ROLE_TYPE_REGULAR, "", classNameId, roleId)
  }

  /** One turn of `getRolesFromSession`'s loop. An existing role of the
      company with that name is taken. Otherwise, with auto-creation on, a
      role is made one above the company's largest role id, with the class
      name id of the role holding that largest id; a company without roles
      (the array index fails) or an id some role already has (`addRole`
      fails) skips the name, as does auto-creation being off. */
  function ResolveRole(roles: seq<Role>, companyId: int, name: string, autoCreate: bool): RoleStep
  {
    var existing := FindRole(roles, companyId, name);
    if existing.Some? then RoleStep(existing, roles)
    else if !autoCreate then RoleStep(None, roles)
    else
      var ids := RoleIds(CompanyRoles(roles, companyId));
      if |ids| == 0 then RoleStep(None, roles)
      else
        var maxId := MaxId(ids);
        var classNameId := match FindRoleById(roles, maxId) case Some(r) => r.classNameId case None => 0;
        if FindRoleById(roles, maxId + 1).Some? then RoleStep(None, roles)
        else
          var role := NewRole(maxId + 1, companyId, name, classNameId);
          RoleStep(Some(role), roles + [role])
  }

  /** The roles found for a list of names, in order, and the role store after
      looking them all up. */
  datatype RolesStep = RolesStep(found: seq<Role>, roles: seq<Role>)

  /** `getRolesFromSession`'s loop over the names, from the first to the last. */
  function ResolveRoles(roles: seq<Role>, companyId: int, names: seq<string>, autoCreate: bool): RolesStep
  {
    if names == [] then RolesStep([], roles)
    else
      var before := ResolveRoles(roles, companyId, names[..|names| - 1], autoCreate);
      var step := ResolveRole(before.roles, companyId, names[|names| - 1], autoCreate);
      RolesStep(before.found + (if step.role.Some? then [step.role.value] else []), step.roles)
  }

  /** One more name: the loop so far, then that name's turn. */
  lemma ResolveRolesSnoc(roles: seq<Role>, companyId: int, names: seq<string>, i: int, autoCreate: bool)
    requires 0 <= i < |names|
    ensures var before := ResolveRoles(roles, companyId, names[..i], autoCreate);
      var step := ResolveRole(before.roles, companyId, names[i], autoCreate);
      ResolveRoles(roles, companyId, names[..i + 1], autoCreate)
        == RolesStep(before.found + (if step.role.Some? then [step.role.value] else []), step.roles)
  {
    assert names[..i + 1][..i] == names[..i];
  }

  /** The role names the session's affiliation lists: none when it is null,
      otherwise the affiliation split at semicolons. */
  function AffiliationNames(session: map<string, string>): seq<string>
  {
    var affiliation := Get(session, SHIBBOLETH_HEADER_AFFILIATION);
    if IsNull(affiliation) then [] else Split(affiliation.value, ';')
  }

  /** `getRolesFromSession`. */
  function RolesFromSession(roles: seq<Role>, companyId: int, session: map<string, string>, config: Configuration): RolesStep
  {
    ResolveRoles(roles, companyId, AffiliationNames(session), config.autoCreateRole)
  }

  /** Distinct role ids. */
  predicate DistinctRoleIds(roles: seq<Role>)
  {
    forall i, j | 0 <= i < j < |roles| :: roles[i].roleId != roles[j].roleId
  }

  /** One turn of the loop only ever appends: a role it creates is a regular
      role of the company, named after the entry, without subtype, with its
      own id as class PK and an id no role had; role ids stay distinct. A
      role it returns is in the store, belongs to the company and has the
      entry's name. */
  lemma ResolveRoleAppends(roles: seq<Role>, companyId: int, name: string, autoCreate: bool)
    requires DistinctRoleIds(roles)
    ensures var s := ResolveRole(roles, companyId, name, autoCreate);
      && DistinctRoleIds(s.roles)
      && (s.roles == roles || (s.role.Some? && s.roles == roles + [s.role.value]))
      && (s.roles != roles ==>
            var r := s.role.value;
            && r.roleType == ROLE_TYPE_REGULAR && r.subtype == "" && r.classPK == r.roleId
            && FindRoleById(roles, r.roleId).None?)
      && (s.role.Some? ==> s.role.value in s.roles && s.role.value.companyId == companyId
                           && s.role.value.name == name)
      && (FindRole(roles, companyId, name).Some? ==> s == RoleStep(FindRole(roles, companyId, name), roles))
      && (!autoCreate ==> s.roles == roles)
  {
  }

  /** The largest id among a company's roles bounds every role id of that
      company and belongs to one of its roles. */
  lemma CompanyMaxId(roles: seq<Role>, companyId: int)
    requires |RoleIds(CompanyRoles(roles, companyId))| > 0
    ensures var m := MaxId(RoleIds(CompanyRoles(roles, companyId)));
      && (forall c | c in roles && c.companyId == companyId :: c.roleId <= m)
      && (exists c | c in roles && c.companyId == companyId :: c.roleId == m)
  {
    var company := CompanyRoles(roles, companyId);
    var ids := RoleIds(company);
    var m := MaxId(ids);
    forall c | c in roles && c.companyId == companyId
      ensures c.roleId <= m
    {
      var i :| 0 <= i < |company| && company[i] == c;
      assert ids[i] == c.roleId && ids[i] in ids;
    }
    var i :| 0 <= i < |ids| && ids[i] == m;
    assert company[i] in roles && company[i].roleId == m;
  }

  /** A created role is numbered one above the largest id among the
      company's roles, so above every one of them, and takes its class name
      id from the role holding that largest id. With the company's roles
      numbered up to its largest id, no role is created when another
      company already uses the next id. */
  lemma CreatedRoleNumbering(roles: seq<Role>, companyId: int, name: string, autoCreate: bool)
    requires ResolveRole(roles, companyId, name, autoCreate).roles != roles
    ensures var r := ResolveRole(roles, companyId, name, autoCreate).role.value;
      && (forall c | c in roles && c.companyId == companyId :: c.roleId < r.roleId)
      && (exists c | c in roles && c.companyId == companyId :: c.roleId == r.roleId - 1)
      && r.classNameId == FindRoleById(roles, r.roleId - 1).value.classNameId
      && r.name == name && r.companyId == companyId && FindRole(roles, companyId, name).None?
  {
    var ids := RoleIds(CompanyRoles(roles, companyId));
    assert FindRole(roles, companyId, name).None? && autoCreate && |ids| > 0;
    var m := MaxId(ids);
    CompanyMaxId(roles, companyId);
    var largest := FindRoleById(roles, m);
    var classNameId := match largest case Some(r) => r.classNameId case None => 0;
    assert ResolveRole(roles, companyId, name, autoCreate).role == Some(NewRole(m + 1, companyId, name, classNameId));
  }

  /** The first role of a company with a name stays the first one when roles
      are appended. */
  lemma FindRoleAfterAppend(roles: seq<Role>, more: seq<Role>, companyId: int, name: string)
    requires FindRole(roles, companyId, name).Some?
    ensures FindRole(roles + more, companyId, name) == FindRole(roles, companyId, name)
  {
    if roles[0].companyId == companyId && roles[0].name == name {
    } else {
      assert (roles + more)[1..] == roles[1..] + more;
      FindRoleAfterAppend(roles[1..], more, companyId, name);
    }
  }

  /** Looking up a list of names only appends to the role store and keeps
      its ids distinct; every role appended is a regular role of the company
      without subtype; with auto-creation off the store does not change. */
  lemma {:induction false} ResolveRolesAppends(roles: seq<Role>, companyId: int, names: seq<string>, autoCreate: bool)
    requires DistinctRoleIds(roles)
    ensures var s := ResolveRoles(roles, companyId, names, autoCreate);
      && DistinctRoleIds(s.roles)
      && roles <= s.roles
      && (forall i | |roles| <= i < |s.roles| ::
            s.roles[i].roleType == ROLE_TYPE_REGULAR && s.roles[i].subtype == "" && s.roles[i].companyId == companyId)
      && (!autoCreate ==> s.roles == roles)
  {
    if names != [] {
      var init := names[..|names| - 1];
      ResolveRolesAppends(roles, companyId, init, autoCreate);
      var before := ResolveRoles(roles, companyId, init, autoCreate);
      ResolveRoleAppends(before.roles, companyId, names[|names| - 1], autoCreate);
    }
  }

  /** At most one role is found per name, and every role found is in the
      store afterwards, belongs to the company and bears one of the names. */
  lemma {:induction false} ResolveRolesFound(roles: seq<Role>, companyId: int, names: seq<string>, autoCreate: bool)
    requires DistinctRoleIds(roles)
    ensures var s := ResolveRoles(roles, companyId, names, autoCreate);
      && |s.found| <= |names|
      && (forall r | r in s.found :: r in s.roles && r.companyId == companyId && r.name in names)
  {
    if names != [] {
      var init := names[..|names| - 1];
      ResolveRolesFound(roles, companyId, init, autoCreate);
      ResolveRolesAppends(roles, companyId, init, autoCreate);
      var before := ResolveRoles(roles, companyId, init, autoCreate);
      ResolveRoleAppends(before.roles, companyId, names[|names| - 1], autoCreate);
      var step := ResolveRole(before.roles, companyId, names[|names| - 1], autoCreate);
      assert before.roles <= step.roles;
      forall r | r in before.found
        ensures r in step.roles && r.name in names
      {
        assert r.name in init;
      }
    }
  }

  /** A role the company had from the start under one of the names is among
      the roles found: it is never replaced by a created one. */
  lemma {:induction false} ResolveRolesFindsExisting(roles: seq<Role>, companyId: int, names: seq<string>,
                                                     autoCreate: bool, name: string)
    requires DistinctRoleIds(roles)
    requires name in names && FindRole(roles, companyId, name).Some?
    ensures FindRole(roles, companyId, name).value in ResolveRoles(roles, companyId, names, autoCreate).found
  {
    var init := names[..|names| - 1];
    var before := ResolveRoles(roles, companyId, init, autoCreate);
    if name == names[|names| - 1] {
      ResolveRolesAppends(roles, companyId, init, autoCreate);
      assert before.roles == roles + before.roles[|roles|..];
      FindRoleAfterAppend(roles, before.roles[|roles|..], companyId, name);
      ResolveRoleAppends(before.roles, companyId, name, autoCreate);
    } else {
      assert name in init;
      ResolveRolesFindsExisting(roles, companyId, init, autoCreate, name);
    }
  }

  // ---------------------------------------------------------------------------
  // Role synchronisation (updateUserRolesFromSession)
  // ---------------------------------------------------------------------------

  /** How `updateUserRolesFromSession` ends: switched off, done, or thrown
      (the exception is swallowed by its caller). */
  datatype RoleSync = Skipped | Synced | Threw(exception: JavaException)

  /** `updateUserRolesFromSession`: with role assignment on, resolves the
      affiliation's roles (perhaps creating some), then takes from the user
      every role with the configured subtype and gives them the resolved
      ones. A null user throws at the first use, after the roles were
      resolved, and so keeps any roles created. */
  function SyncRoles(p: Portal, companyId: int, user: Option<User>, session: map<string, string>,
                     config: Configuration): Step<RoleSync>
  {
    if !config.autoAssignUserRole then Step(Skipped, p)
    else
      var resolved := RolesFromSession(p.roles, companyId, session, config);
      var subtypeRoles := SubtypeRoles(resolved.roles, config.autoAssignUserRoleSubType);
      match user
      case None => Step(Threw(NullPointerException), p.(roles := resolved.roles))
      case Some(u) =>
        Step(Synced, p.(roles := resolved.roles,
                        userRoles := Reassigned(p.userRoles, u.userId, RoleIds(subtypeRoles), RoleIds(resolved.found))))
  }

  /** After a sync the user holds role `r` exactly when the affiliation
      resolved to `r`, or the user held `r` before and no role with the
      configured subtype has id `r`. Other users keep their roles, and the
      user store is untouched. */
  lemma SyncRolesAssignment(p: Portal, companyId: int, user: User, session: map<string, string>,
                            config: Configuration, u: int, r: int)
    requires config.autoAssignUserRole
    ensures var s := SyncRoles(p, companyId, Some(user), session, config);
      var resolved := RolesFromSession(p.roles, companyId, session, config);
      && s.value == Synced
      && s.portal.users == p.users && s.portal.nextUserId == p.nextUserId
      && ((u, r) in s.portal.userRoles <==>
            if u == user.userId then
              (exists role | role in resolved.found :: role.roleId == r)
              || ((u, r) in p.userRoles
                  && !exists role | role in resolved.roles :: role.subtype == config.autoAssignUserRoleSubType && role.roleId == r)
            else (u, r) in p.userRoles)
  {
    var resolved := RolesFromSession(p.roles, companyId, session, config);
    var subtypeRoles := SubtypeRoles(resolved.roles, config.autoAssignUserRoleSubType);
    ReassignedOneUser(p.userRoles, user.userId, RoleIds(subtypeRoles), RoleIds(resolved.found), u, r);
    RoleIdIn(resolved.found, r);
    RoleIdIn(subtypeRoles, r);
  }

  /** An id is among a list's ids exactly when a role of the list has it. */
  lemma RoleIdIn(roles: seq<Role>, r: int)
    ensures r in RoleIds(roles) <==> exists role | role in roles :: role.roleId == r
  {
    if r in RoleIds(roles) {
      var i :| 0 <= i < |roles| && RoleIds(roles)[i] == r;
      assert roles[i] in roles;
    }
    if exists role | role in roles :: role.roleId == r {
      var role :| role in roles && role.roleId == r;
      var i :| 0 <= i < |roles| && roles[i] == role;
      assert RoleIds(roles)[i] == r;
    }
  }

  /** A role that looking up a list of names adds to the store is a regular
      role of the company whose subtype is left unset. */
  lemma CreatedRolesHaveNoSubtype(roles: seq<Role>, companyId: int, names: seq<string>, autoCreate: bool, role: Role)
    requires DistinctRoleIds(roles)
    requires role in ResolveRoles(roles, companyId, names, autoCreate).roles && role !in roles
    ensures role.subtype == "" && role.roleType == ROLE_TYPE_REGULAR && role.companyId == companyId
  {
    ResolveRolesAppends(roles, companyId, names, autoCreate);
  }

  /** A stored role without subtype (one the hook created on an earlier
      login, say) is never taken away by a sync whose configured subtype is
      not empty: a user who held it still holds it. */
  lemma AutoCreatedRolesSurvive(p: Portal, companyId: int, user: User, session: map<string, string>,
                                config: Configuration, role: Role)
    requires config.autoAssignUserRole && config.autoAssignUserRoleSubType != ""
    requires DistinctRoleIds(p.roles)
    requires role in p.roles && role.subtype == ""
    ensures (user.userId, role.roleId) in p.userRoles ==>
      (user.userId, role.roleId) in SyncRoles(p, companyId, Some(user), session, config).portal.userRoles
  {
    var resolved := RolesFromSession(p.roles, companyId, session, config).roles;
    ResolveRolesAppends(p.roles, companyId, AffiliationNames(session), config.autoCreateRole);
    var k :| 0 <= k < |p.roles| && p.roles[k] == role;
    assert resolved[k] == role;
    SyncRolesAssignment(p, companyId, user, session, config, user.userId, role.roleId);
    forall other | other in resolved && other.roleId == role.roleId
      ensures other.subtype != config.autoAssignUserRoleSubType
    {
      var j :| 0 <= j < |resolved| && resolved[j] == other;
      assert j == k;
    }
  }

  /** An affiliation naming a role the company has and one it lacks: with
      auto-creation on, the first is found and the second is created one
      above the company's largest role id, after the role of another company
      with a larger id is ignored. */
  lemma AffiliationScenario()
    ensures var staff := Role(10, 1, "staff", ROLE_TYPE_REGULAR, "fel", 5, 0);
      var other := Role(20, 2, "admin", ROLE_TYPE_REGULAR, "", 7, 0);
      ResolveRoles([staff, other], 1, ["staff", "guest"], true)
        == RolesStep([staff, NewRole(11, 1, "guest", 5)], [staff, other, NewRole(11, 1, "guest", 5)])
  {
    var staff := Role(10, 1, "staff", ROLE_TYPE_REGULAR, "fel", 5, 0);
    var other := Role(20, 2, "admin", ROLE_TYPE_REGULAR, "", 7, 0);
    var roles := [staff, other];
    assert roles[1..] == [other] && [other][1..] == [];
    assert ["staff", "guest"][..1] == ["staff"];
    assert ["staff"][..0] == [];
    assert ResolveRoles(roles, 1, ["staff"], true) == RolesStep([staff], roles) by {
      assert FindRole(roles, 1, "staff") == Some(staff);
    }
    assert FindRole(roles, 1, "guest") == None by {
      assert "guest" != "staff" by { assert "guest"[0] != "staff"[0]; }
      assert FindRole([other], 1, "guest") == None;
    }
    assert CompanyRoles(roles, 1) == [staff] by {
      assert CompanyRoles([other], 1) == [];
    }
    assert RoleIds([staff]) == [10];
    assert MaxId([10]) == 10;
    assert FindRoleById(roles, 10) == Some(staff);
    assert FindRoleById(roles, 11) == None by {
      assert FindRoleById([other], 11) == None;
    }
  }

  // ---------------------------------------------------------------------------
  // Finding the user (loginFromSession)
  // ---------------------------------------------------------------------------

  /** The outcome of the lookup: a stored user, none (`NoSuchUserException`),
      or an e-mail login without an e-mail in the session, which gives up. */
  datatype Lookup = Found(user: User) | NotFound | GiveUp

  /** The lookup by the company's authentication type: the screen name is
      the session's login, the e-mail address the session's e-mail; any other
      type finds nobody. */
  function LookupUser(users: seq<User>, companyId: int, login: string, session: map<string, string>,
                      authType: string): Lookup
  {
    if authType == AUTH_TYPE_SN then
      match FindUserByScreenName(users, companyId, login) case Some(u) => Found(u) case None => NotFound
    else if authType == AUTH_TYPE_EA then
      var emailAddress := Get(session, SHIBBOLETH_HEADER_EMAIL);
      if IsNull(emailAddress) then GiveUp
      else match FindUserByEmail(users, companyId, emailAddress.value) case Some(u) => Found(u) case None => NotFound
    else NotFound
  }

  /** Screen-name authentication looks the login up as a screen name,
      e-mail authentication looks the session's e-mail up as an address,
      and any other type finds nobody. */
  lemma LookupUserByAuthType(users: seq<User>, companyId: int, login: string, session: map<string, string>,
                             authType: string)
    ensures var l := LookupUser(users, companyId, login, session, authType);
      && (authType == AUTH_TYPE_SN ==>
            (l.Found? <==> exists u | u in users :: u.companyId == companyId && u.screenName == login)
            && (l.Found? ==> l.user in users && l.user.screenName == login && l.user.companyId == companyId))
      && (authType == AUTH_TYPE_EA && !IsNull(Get(session, SHIBBOLETH_HEADER_EMAIL)) ==>
            var emailAddress := Get(session, SHIBBOLETH_HEADER_EMAIL).value;
            (l.Found? <==> exists u | u in users :: u.companyId == companyId && u.emailAddress == emailAddress)
            && (l.Found? ==> l.user in users && l.user.emailAddress == emailAddress && l.user.companyId == companyId))
      && (authType != AUTH_TYPE_SN && authType != AUTH_TYPE_EA ==> l == NotFound)
  {
  }

  /** The user `loginFromSession` settles on, and the stores, before roles
      are synchronised; Failure for what escapes without a sync. */
  function FindOrMakeUser(p: Portal, ctx: Context, login: string, lookup: Lookup, session: map<string, string>)
    : Step<Result<Option<User>>>
  {
    match lookup
    case GiveUp => Step(Success(None), p)
    case Found(user) =>
      if ctx.config.autoUpdateUsers then
        var updated := UpdateUser(p, user, session);
        Step(Success(Some(updated.value)), updated.portal)
      else Step(Success(Some(user)), p)
    case NotFound =>
      if ctx.config.autoCreateUsers then
        var created := CreateUser(p, ctx.companyId, session, ctx.generatedPassword);
        match created.value
        case Failure(e) => Step(Failure(e), created.portal)
        case Success(None) => Step(Failure(NullPointerException), created.portal)
        case Success(Some(user)) => Step(Success(Some(user)), created.portal)
      else if ctx.config.importFromLDAP then
        var imported := if ctx.authType == AUTH_TYPE_SN then ctx.importer(ctx.companyId, "", login)
                        else ctx.importer(ctx.companyId, login, "");
        match imported
        case Imported(user) => Step(Success(Some(user)), p)
        case NotImported => Step(Success(None), p)
        case ImportSystemFailure => Step(Success(None), p)
        case ImportNoSuchUser => Step(Failure(NoSuchUserException), p)
        case ImportFailure => Step(Failure(ImportException), p)
      else Step(Success(None), p)
  }

  /** `loginFromSession`: nothing without a login in the session or, under
      e-mail authentication, without an e-mail; otherwise the user found,
      updated, created or imported, after the roles were synchronised
      (a sync that throws is ignored). */
  function Resolve(p: Portal, ctx: Context, session: map<string, string>): Step<Result<Option<User>>>
  {
    var login := Get(session, SHIBBOLETH_LOGIN);
    if IsNull(login) then Step(Success(None), p)
    else
      var lookup := LookupUser(p.users, ctx.companyId, login.value, session, ctx.authType);
      if lookup.GiveUp? then Step(Success(None), p)
      else
        var settled := FindOrMakeUser(p, ctx, login.value, lookup, session);
        match settled.value
        case Failure(e) => settled
        case Success(user) =>
          Step(Success(user), SyncRoles(settled.portal, ctx.companyId, user, session, ctx.config).portal)
  }

  /** Without a login in the session, or under e-mail authentication without
      an e-mail, nobody logs in and nothing changes: no user is made and no
      role is synchronised. */
  lemma ResolveNeedsIdentity(p: Portal, ctx: Context, session: map<string, string>)
    requires IsNull(Get(session, SHIBBOLETH_LOGIN))
             || (ctx.authType == AUTH_TYPE_EA && IsNull(Get(session, SHIBBOLETH_HEADER_EMAIL)))
    ensures Resolve(p, ctx, session) == Step(Success(None), p)
  {
  }

  /** A stored user found by the lookup is the one logged in (with the
      session's values when updating is on); no user is created or imported
      and the importer is never consulted. */
  lemma ResolveFoundUser(p: Portal, ctx: Context, session: map<string, string>, user: User)
    requires !IsNull(Get(session, SHIBBOLETH_LOGIN))
    requires LookupUser(p.users, ctx.companyId, Get(session, SHIBBOLETH_LOGIN).value, session, ctx.authType) == Found(user)
    ensures var r := Resolve(p, ctx, session);
      && r.value == Success(Some(if ctx.config.autoUpdateUsers then SessionUpdate(user, session) else user))
      && r.portal.nextUserId == p.nextUserId && |r.portal.users| == |p.users|
    ensures forall importer | true :: Resolve(p, ctx.(importer := importer), session) == Resolve(p, ctx, session)
  {
  }

  /** When the lookup finds nobody and auto-creation is on, the user comes
      from the session and from nowhere else: the directory importer is not
      consulted even when import is enabled. A missing session value makes
      the null user fail at its first use, and a rejected one fails too;
      either way before any role is synchronised and with the stores as
      they were. */
  lemma ResolveCreatesFromSession(p: Portal, ctx: Context, session: map<string, string>)
    requires ValidPortal(p)
    requires !IsNull(Get(session, SHIBBOLETH_LOGIN))
    requires LookupUser(p.users, ctx.companyId, Get(session, SHIBBOLETH_LOGIN).value, session, ctx.authType) == NotFound
    requires ctx.config.autoCreateUsers
    ensures forall importer | true :: Resolve(p, ctx.(importer := importer), session) == Resolve(p, ctx, session)
    ensures var r := Resolve(p, ctx, session);
      && (NewUserRequest(ctx.companyId, session).None? ==> r == Step(Failure(NullPointerException), p))
      && (r.value.Failure? ==> r.portal == p)
      && (r.value.Success? ==> r.value.value.Some? && r.portal.users == p.users + [r.value.value.value])
  {
    CreateUserFromSessionValues(p, ctx.companyId, session, ctx.generatedPassword);
  }

  /** With auto-creation off and import on, a user not found is asked of the
      directory: by screen name (blank e-mail) under screen-name
      authentication, by e-mail (blank screen name) otherwise. A
      `SystemException` there means nobody logs in; a `NoSuchUserException`
      or any other failure escapes before roles are synchronised. */
  lemma ResolveImports(p: Portal, ctx: Context, session: map<string, string>)
    requires !IsNull(Get(session, SHIBBOLETH_LOGIN))
    requires LookupUser(p.users, ctx.companyId, Get(session, SHIBBOLETH_LOGIN).value, session, ctx.authType) == NotFound
    requires !ctx.config.autoCreateUsers && ctx.config.importFromLDAP
    ensures var login := Get(session, SHIBBOLETH_LOGIN).value;
      var imported := ctx.importer(ctx.companyId, if ctx.authType == AUTH_TYPE_SN then "" else login,
                                                  if ctx.authType == AUTH_TYPE_SN then login else "");
      var r := Resolve(p, ctx, session);
      && r.portal.users == p.users
      && (imported.Imported? ==> r.value == Success(Some(imported.user)))
      && (imported.NotImported? || imported.ImportSystemFailure? ==> r.value == Success(None))
      && (imported.ImportNoSuchUser? ==> r == Step(Failure(NoSuchUserException), p))
      && (imported.ImportFailure? ==> r == Step(Failure(ImportException), p))
  {
  }

  /** Roles are synchronised for every login that gets past the lookup,
      even one that ends without a user; then the sync's null user throws,
      is swallowed, and the roles it created stay. */
  lemma ResolveSyncsWithoutUser(p: Portal, ctx: Context, session: map<string, string>)
    requires !IsNull(Get(session, SHIBBOLETH_LOGIN))
    requires LookupUser(p.users, ctx.companyId, Get(session, SHIBBOLETH_LOGIN).value, session, ctx.authType) == NotFound
    requires !ctx.config.autoCreateUsers && !ctx.config.importFromLDAP
    requires ctx.config.autoAssignUserRole
    ensures Resolve(p, ctx, session) ==
      Step(Success(None), p.(roles := RolesFromSession(p.roles, ctx.companyId, session, ctx.config).roles))
  {
  }

  /** Settling on a user keeps the stores' keys valid. */
  lemma FindOrMakeUserValid(p: Portal, ctx: Context, login: string, session: map<string, string>)
    requires ValidPortal(p)
    ensures var lookup := LookupUser(p.users, ctx.companyId, login, session, ctx.authType);
      ValidPortal(FindOrMakeUser(p, ctx, login, lookup, session).portal)
  {
    match LookupUser(p.users, ctx.companyId, login, session, ctx.authType) {
      case Found(user) => UpdateUserKeepsKeys(p, user, session);
      case NotFound => CreateUserFromSessionValues(p, ctx.companyId, session, ctx.generatedPassword);
      case GiveUp =>
    }
  }

  /** A role sync keeps the stores' keys valid. */
  lemma SyncRolesValid(p: Portal, companyId: int, user: Option<User>, session: map<string, string>,
                       config: Configuration)
    requires ValidPortal(p)
    ensures ValidPortal(SyncRoles(p, companyId, user, session, config).portal)
  {
    ResolveRolesAppends(p.roles, companyId, AffiliationNames(session), config.autoCreateRole);
  }

  /** `loginFromSession` keeps the stores' keys valid: user ids distinct and
      below the counter, role ids distinct. */
  lemma ResolvePreservesValid(p: Portal, ctx: Context, session: map<string, string>)
    requires ValidPortal(p)
    ensures ValidPortal(Resolve(p, ctx, session).portal)
  {
    var login := Get(session, SHIBBOLETH_LOGIN);
    if !IsNull(login) {
      var lookup := LookupUser(p.users, ctx.companyId, login.value, session, ctx.authType);
      var settled := FindOrMakeUser(p, ctx, login.value, lookup, session);
      FindOrMakeUserValid(p, ctx, login.value, session);
      if settled.value.Success? {
        SyncRolesValid(settled.portal, ctx.companyId, settled.value.value, session, ctx.config);
      }
    }
  }

  // ---------------------------------------------------------------------------
  // Logging in (login)
  // ---------------------------------------------------------------------------

  /** What `login` gives the portal: credentials, null, or an
      `AutoLoginException` wrapping what escaped. */
  datatype LoginResult = Credentials(credentials: seq<string>) | NoCredentials | AutoLoginException(cause: JavaException)

  /** `login`: nothing when the plugin is off; otherwise the user
      `loginFromSession` settles on, as the user id in decimal, the stored
      password and "true". A request without a session fails on the null
      session; a `NoSuchUserException` that escapes the lookup gives no
      credentials, any other exception is wrapped. */
  function LoginSpec(p: Portal, ctx: Context, session: Option<map<string, string>>): Step<LoginResult>
  {
    if !ctx.config.enabled then Step(NoCredentials, p)
    else if session.None? then Step(AutoLoginException(NullPointerException), p)
    else
      var r := Resolve(p, ctx, session.value);
      match r.value
      case Failure(NoSuchUserException) => Step(NoCredentials, r.portal)
      case Failure(e) => Step(AutoLoginException(e), r.portal)
      case Success(None) => Step(NoCredentials, r.portal)
      case Success(Some(user)) => Step(Credentials([LongToString(user.userId), user.password, "true"]), r.portal)
  }

  /** Credentials are handed out exactly when the plugin is on, the request
      has a session and a user was settled on; then they are three strings,
      the first reading back as that user's id, the second their password,
      the third "true". */
  lemma LoginCredentials(p: Portal, ctx: Context, session: Option<map<string, string>>)
    ensures var l := LoginSpec(p, ctx, session);
      && (l.value.Credentials? <==>
            ctx.config.enabled && session.Some? && Resolve(p, ctx, session.value).value.Success?
            && Resolve(p, ctx, session.value).value.value.Some?)
      && (l.value.Credentials? ==>
            var user := Resolve(p, ctx, session.value).value.value.value;
            && |l.value.credentials| == 3
            && ParseLong(l.value.credentials[0]) == user.userId
            && l.value.credentials[1] == user.password
            && l.value.credentials[2] == "true")
      && (l.value.AutoLoginException? <==>
            ctx.config.enabled
            && (session.None?
                || (Resolve(p, ctx, session.value).value.Failure?
                    && Resolve(p, ctx, session.value).value.error != NoSuchUserException)))
  {
    if LoginSpec(p, ctx, session).value.Credentials? {
      LongToStringRoundTrip(Resolve(p, ctx, session.value).value.value.value.userId);
    }
  }

  /** A directory import that throws `NoSuchUserException` ends the login
      with no credentials and no change to the stores, not with an
      `AutoLoginException`. */
  lemma LoginSwallowsNoSuchUser(p: Portal, ctx: Context, session: map<string, string>)
    requires ctx.config.enabled
    requires !IsNull(Get(session, SHIBBOLETH_LOGIN))
    requires LookupUser(p.users, ctx.companyId, Get(session, SHIBBOLETH_LOGIN).value, session, ctx.authType) == NotFound
    requires !ctx.config.autoCreateUsers && ctx.config.importFromLDAP
    requires var login := Get(session, SHIBBOLETH_LOGIN).value;
      ctx.importer(ctx.companyId, if ctx.authType == AUTH_TYPE_SN then "" else login,
                                  if ctx.authType == AUTH_TYPE_SN then login else "") == ImportNoSuchUser
    ensures LoginSpec(p, ctx, Some(session)) == Step(NoCredentials, p)
  {
    ResolveImports(p, ctx, session);
  }

  /** With the plugin off nobody is logged in and nothing changes. */
  lemma LoginDisabled(p: Portal, ctx: Context, session: Option<map<string, string>>)
    requires !ctx.config.enabled
    ensures LoginSpec(p, ctx, session) == Step(NoCredentials, p)
  {
  }

  // ---------------------------------------------------------------------------
  // The hook with its stores
  // ---------------------------------------------------------------------------

  /** The hook together with the stores of the portal services it calls:
      users, roles, user-role assignments and the user id counter. */
  class AutoLogin {
    var users: seq<User>
    var roles: seq<Role>
    var userRoles: set<(int, int)>
    var nextUserId: int

    constructor (portal: Portal)
      ensures State() == portal
    {
      users := portal.users;
      roles := portal.roles;
      userRoles := portal.userRoles;
      nextUserId := portal.nextUserId;
    }

    /** The stores as one value. */
    function State(): Portal
      reads this
    {
      Portal(users, roles, userRoles, nextUserId)
    }

    /** `addUser`: builds the request and has the user service store it. */
    method AddUser(companyId: int, screenName: string, emailAddress: string, firstName: string, lastName: string,
                   generatedPassword: string) returns (result: Result<User>)
      modifies this
      ensures Step(result, State())
        == PortalServices.AddUser(old(State()), AddUserArguments(companyId, screenName, emailAddress, firstName, lastName),
                                  generatedPassword)
    {
      var request := AddUserArguments(companyId, screenName, emailAddress, firstName, lastName);
      var added := PortalServices.AddUser(State(), request, generatedPassword);
      users := added.portal.users;
      nextUserId := added.portal.nextUserId;
      result := added.value;
    }

    /** `createUserFromSession`: the four session values, checked in turn. */
    method CreateUserFromSession(companyId: int, session: map<string, string>, generatedPassword: string)
      returns (result: Result<Option<User>>)
      modifies this
      ensures Step(result, State()) == CreateUser(old(State()), companyId, session, generatedPassword)
    {
      var screenName := Get(session, SHIBBOLETH_LOGIN);
      if IsNull(screenName) {
        return Success(None);
      }
      var emailAddress := Get(session, SHIBBOLETH_HEADER_EMAIL);
      if IsNull(emailAddress) {
        return Success(None);
      }
      var firstName := Get(session, SHIBBOLETH_HEADER_FIRSTNAME);
      if IsNull(firstName) {
        return Success(None);
      }
      var surname := Get(session, SHIBBOLETH_HEADER_SURNAME);
      if IsNull(surname) {
        return Success(None);
      }
      var added := AddUser(companyId, screenName.value, emailAddress.value, firstName.value, surname.value,
                           generatedPassword);
      match added {
        case Success(user) => result := Success(Some(user));
        case Failure(e) => result := Failure(e);
      }
    }

    /** `updateUserFromSession`: the three setters, each when the session
      value is not null and differs, and one store update if any ran. */
    method UpdateUserFromSession(user: User, session: map<string, string>) returns (updated: User)
      modifies this
      ensures Step(updated, State()) == UpdateUser(old(State()), user, session)
    {
      var modified := false;
      updated := user;
      var emailAddress := Get(session, SHIBBOLETH_HEADER_EMAIL);
      if !IsNull(emailAddress) && updated.emailAddress != emailAddress.value {
        updated := updated.(emailAddress := emailAddress.value);
        modified := true;
      }
      var firstName := Get(session, SHIBBOLETH_HEADER_FIRSTNAME);
      if !IsNull(firstName) && updated.firstName != firstName.value {
        updated := updated.(firstName := firstName.value);
        modified := true;
      }
      var surname := Get(session, SHIBBOLETH_HEADER_SURNAME);
      if !IsNull(surname) && updated.lastName != surname.value {
        updated := updated.(lastName := surname.value);
        modified := true;
      }
      assert modified <==> updated != user;
      if modified {
        users := ReplaceUser(users, updated);
      }
    }

    /** `roleListToLongArray`: the ids of the roles, in list order. */
    method RoleListToLongArray(list: seq<Role>) returns (roleIds: array<int>)
      ensures roleIds.Length == |list|
      ensures forall i | 0 <= i < |list| :: roleIds[i] == list[i].roleId
    {
      roleIds := new int[|list|];
      for i := 0 to |list|
        invariant forall k | 0 <= k < i :: roleIds[k] == list[k].roleId
      {
        roleIds[i] := list[i].roleId;
      }
    }

    /** The body of `getRolesFromSession`'s loop for one role name. */
    method GetOrCreateRole(companyId: int, roleName: string, autoCreate: bool) returns (role: Option<Role>)
      modifies this
      ensures RoleStep(role, roles) == ResolveRole(old(roles), companyId, roleName, autoCreate)
      ensures users == old(users) && userRoles == old(userRoles) && nextUserId == old(nextUserId)
    {
      role := FindRole(roles, companyId, roleName);
      if role.Some? {
        return;
      }
      if !autoCreate {
        return;
      }
      var roleList := CompanyRoles(roles, companyId);
      var roleIds := RoleListToLongArray(roleList);
      if roleIds.Length == 0 {
        // roleIds[roleIds.length - 1] throws; the name is skipped
        return None;
      }
      assert roleIds[..] == RoleIds(roleList);
      // after Arrays.sort the last element is the largest
      var maxId := MaxId(roleIds[..]);
      var newId := maxId + 1;
      var classNameId := 0;
      var largest := FindRoleById(roles, maxId);
      if largest.Some? {
        classNameId := largest.value.classNameId;
      }
      if FindRoleById(roles, newId).Some? {
        // addRole fails on the taken id; the name is skipped
        return None;
      }
      var created := NewRole(newId, companyId, roleName, classNameId);
      roles := roles + [created];
      role := Some(created);
    }

    /** `getRolesFromSession`: the roles named by the affiliation, looked up
      or created one name after the other. */
    method GetRolesFromSession(companyId: int, session: map<string, string>, config: Configuration)
      returns (found: seq<Role>)
      modifies this
      ensures RolesStep(found, roles) == RolesFromSession(old(roles), companyId, session, config)
      ensures users == old(users) && userRoles == old(userRoles) && nextUserId == old(nextUserId)
    {
      found := [];
      var affiliation := Get(session, SHIBBOLETH_HEADER_AFFILIATION);
      if IsNull(affiliation) {
        return;
      }
      var affiliationList := Split(affiliation.value, ';');
      ghost var initial := roles;
      for i := 0 to |affiliationList|
        invariant RolesStep(found, roles) == ResolveRoles(initial, companyId, affiliationList[..i], config.autoCreateRole)
        invariant users == old(users) && userRoles == old(userRoles) && nextUserId == old(nextUserId)
      {
        ResolveRolesSnoc(initial, companyId, affiliationList, i, config.autoCreateRole);
        var role := GetOrCreateRole(companyId, affiliationList[i], config.autoCreateRole);
        if role.Some? {
          found := found + [role.value];
        }
      }
      assert affiliationList[..|affiliationList|] == affiliationList;
    }

    /** `updateUserRolesFromSession`. */
    method UpdateUserRolesFromSession(companyId: int, user: Option<User>, session: map<string, string>,
                                      config: Configuration) returns (outcome: RoleSync)
      modifies this
      ensures Step(outcome, State()) == SyncRoles(old(State()), companyId, user, session, config)
    {
      if !config.autoAssignUserRole {
        return Skipped;
      }
      var currentRoles := GetRolesFromSession(companyId, session, config);
      var currentRoleIds := RoleListToLongArray(currentRoles);
      var subtypeRoles := SubtypeRoles(roles, config.autoAssignUserRoleSubType);
      var subtypeRoleIds := RoleListToLongArray(subtypeRoles);
      if user.None? {
        // user.getUserId() on the null user
        return Threw(NullPointerException);
      }
      assert currentRoleIds[..] == RoleIds(currentRoles);
      assert subtypeRoleIds[..] == RoleIds(subtypeRoles);
      userRoles := Reassigned(userRoles, user.value.userId, subtypeRoleIds[..], currentRoleIds[..]);
      outcome := Synced;
    }

    /** `loginFromSession`. */
    method LoginFromSession(ctx: Context, session: map<string, string>) returns (result: Result<Option<User>>)
      modifies this
      ensures Step(result, State()) == Resolve(old(State()), ctx, session)
    {
      var login := Get(session, SHIBBOLETH_LOGIN);
      if IsNull(login) {
        return Success(None);
      }
      var user: Option<User> := None;
      var found: Option<User>;
      if ctx.authType == AUTH_TYPE_SN {
        found := FindUserByScreenName(users, ctx.companyId, login.value);
      } else if ctx.authType == AUTH_TYPE_EA {
        var emailAddress := Get(session, SHIBBOLETH_HEADER_EMAIL);
        if IsNull(emailAddress) {
          return Success(None);
        }
        found := FindUserByEmail(users, ctx.companyId, emailAddress.value);
      } else {
        // NoSuchUserException
        found := None;
      }
      ghost var lookup := LookupUser(old(users), ctx.companyId, login.value, session, ctx.authType);
      ghost var settled := FindOrMakeUser(old(State()), ctx, login.value, lookup, session);
      if found.Some? {
        assert lookup == Found(found.value);
        user := found;
        if ctx.config.autoUpdateUsers {
          var updated := UpdateUserFromSession(found.value, session);
          user := Some(updated);
        }
      } else {
        assert lookup == NotFound;
        if ctx.config.autoCreateUsers {
          var created := CreateUserFromSessionResult(ctx, session);
          if created.Failure? {
            return created;
          }
          user := created.value;
        } else if ctx.config.importFromLDAP {
          var imported := if ctx.authType == AUTH_TYPE_SN then ctx.importer(ctx.companyId, "", login.value)
                          else ctx.importer(ctx.companyId, login.value, "");
          match imported {
            case Imported(u) => user := Some(u);
            case NotImported =>
            case ImportSystemFailure =>
            case ImportNoSuchUser => return Failure(NoSuchUserException);
            case ImportFailure => return Failure(ImportException);
          }
        }
      }
      assert settled == Step(Success(user), State());
      var _ := UpdateUserRolesFromSession(ctx.companyId, user, session, ctx.config);
      result := Success(user);
    }

    /** `createUserFromSession` followed by the use of the user it returns:
      a null user fails there with a NullPointerException. */
    method CreateUserFromSessionResult(ctx: Context, session: map<string, string>) returns (result: Result<Option<User>>)
      modifies this
      ensures var created := CreateUser(old(State()), ctx.companyId, session, ctx.generatedPassword);
        Step(result, State()) ==
          match created.value
          case Failure(e) => Step(Failure(e), created.portal)
          case Success(None) => Step(Failure(NullPointerException), created.portal)
          case Success(Some(user)) => Step(Success(Some(user)), created.portal)
    {
      result := CreateUserFromSession(ctx.companyId, session, ctx.generatedPassword);
      if result.Success? && result.value.None? {
        // user.getUserId() on the null user
        result := Failure(NullPointerException);
      }
    }

    /** `login`. */
    method Login(ctx: Context, session: Option<map<string, string>>) returns (result: LoginResult)
      modifies this
      ensures Step(result, State()) == LoginSpec(old(State()), ctx, session)
    {
      if !ctx.config.enabled {
        return NoCredentials;
      }
      if session.None? {
        // session.getAttribute on the null session
        return AutoLoginException(NullPointerException);
      }
      var user := LoginFromSession(ctx, session.value);
      match user {
        case Failure(NoSuchUserException) => result := NoCredentials;
        case Failure(e) => result := AutoLoginException(e);
        case Success(None) => result := NoCredentials;
        case Success(Some(u)) => result := Credentials([LongToString(u.userId), u.password, "true"]);
      }
    }
  }
}

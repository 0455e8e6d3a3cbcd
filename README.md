# Shibboleth single sign-on for Liferay, modelled in Dafny

The plugin logs Liferay users in from a Shibboleth identity provider in two
steps:

- **The filter.** `ShibbolethFilter.extractData` copies the identity of a new
  session into the HTTP session, once per session. It reads five attributes
  from HTTP headers or from request attributes: login, e-mail, first name,
  surname and affiliation. It normalises them as follows:
  - the login becomes a screen name (`@` turns into `.at.`, `_` into `-`);
  - only the first `;`-separated e-mail is kept;
  - absent names become `MissingFirstName` / `MissingSurname`;
  - entitlement namespaces can be cut from the affiliation entries.
- **The auto-login hook.** `ShibbolethAutoLogin.login` turns that session
  into a portal user and returns the user's credentials. It does so in
  three steps:
  - It finds the user by screen name or by e-mail. A user it finds may be
    diff-updated from the session.
  - A user it does not find is either created from the session or imported
    from the directory (LDAP).
  - It reconciles the user's roles with the affiliation. This takes away
    every role of a configured subtype, gives the user the affiliation's
    roles, and creates any of those roles the company lacks.

The project's modules:

- `JavaLang`: `Option`, `Result` and the exceptions. It also has Java's
  `replaceAll` with a literal one-character pattern, `split` with a
  one-character delimiter (trailing empty strings dropped), and
  `String.valueOf(long)` with its inverse.
- `Validator`: Liferay's `Validator.isNull`. A string counts as null when it
  is null, or when, spaces removed, it is empty or the word `null`.
- `Servlet`: the request (headers and attributes) and the HTTP session. The
  session is a class whose `setAttribute` updates its map.
- `ShibbolethConfig`: the per-company configuration record and the five
  session keys.
- `ShibbolethFilter`: `getHeader` and `extractData`.
  - `Extract` says what `extractData` returns or throws and what the session
    holds afterwards.
  - The method `ExtractData` performs the same steps in the source's order
    on a `Session` object. It is proved equal to `Extract`.
  - The affiliation loop is the method `TruncateMultiValued`. It is proved
    against the function `MultiValuedTruncation`.
- `PortalServices`: the portal services the hook calls.
  - Users, roles, user–role assignments and the user id counter make up one
    `Portal` value.
  - Each service call is a function of that value: `getUserByScreenName`,
    `addUser`, `getRole`, `getSubtypeRoles`, `unsetUserRoles` followed by
    `addUserRoles`, and so on.
- `ShibbolethAutoLogin`: the hook.
  - Functions state what each step does to the stores: `CreateUser`,
    `UpdateUser`, `ResolveRoles`, `SyncRoles`, `Resolve` (for
    `loginFromSession`) and `LoginSpec` (for `login`).
  - The class `AutoLogin` holds the stores as fields. Its methods follow the
    source statement by statement. Each method is proved to leave the stores
    and return the result its function describes.

Things outside the plugin are parameters:

- the company's authentication type, which `PrefsPropsUtil` supplies;
- the directory importer, as a function from (company id, e-mail address,
  screen name) to its outcome;
- the password `addUser` generates;
- the request's session, which may be absent.

The model follows the code as written. In particular:

- A null e-mail makes the filter throw after it has already stored the
  login.
- An entry of only colons makes the truncation throw.
- Auto-creation of users excludes the directory import. A creation that
  returns null fails at the next dereference, before any role sync.
- Roles are synchronised even when no user was resolved. The sync then
  throws, the exception is swallowed, and any roles it created stay.
- Created roles get no subtype.
- A `NoSuchUserException` from the directory import escapes `loginFromSession`; `login` then returns null credentials instead of raising an `AutoLoginException`.

## Model

| member | source | states |
|---|---|---|
| ShibbolethFilter.GetHeader | src/main/java/com/liferay/portal/servlet/filters/sso/shibboleth/ShibbolethFilter.java:227-242 | a value is read exactly when the configured name is not null and the namespace the flag selects (headers when enabled, request attributes otherwise) holds that name, and it is the entry held there |
| ShibbolethFilter.GetHeaderReadsOneNamespace | src/main/java/com/liferay/portal/servlet/filters/sso/shibboleth/ShibbolethFilter.java:227-242 | the value read depends only on the headers when headers are enabled, only on the attributes otherwise, and on neither for a null name |
| ShibbolethFilter.TransformScreenName | src/main/java/com/liferay/portal/servlet/filters/sso/shibboleth/ShibbolethFilter.java:131-151 | every `@` becomes `.at.`, then every `_` becomes `-`; the result holds neither character |
| ShibbolethFilter.TransformIdempotent | src/main/java/com/liferay/portal/servlet/filters/sso/shibboleth/ShibbolethFilter.java:131-151 | transforming a screen name a second time changes nothing |
| ShibbolethFilter.TransformAddress | src/main/java/com/liferay/portal/servlet/filters/sso/shibboleth/ShibbolethFilter.java:136-141 | a principal name `user@domain` becomes `user.at.domain` |
| ShibbolethFilter.StoredLogin | src/main/java/com/liferay/portal/servlet/filters/sso/shibboleth/ShibbolethFilter.java:131-158 | definition: the login stored is the transformed login when the transform is enabled and the login as read otherwise |
| ShibbolethFilter.StoredLoginNotNull | src/main/java/com/liferay/portal/servlet/filters/sso/shibboleth/ShibbolethFilter.java:125-158 | a login that passed the null test is still not null once transformed, so it is stored as a real login |
| ShibbolethFilter.StoredEmail | src/main/java/com/liferay/portal/servlet/filters/sso/shibboleth/ShibbolethFilter.java:160-169 | definition: a multi-valued e-mail is cut to its first `;`-piece; none where `emails[0]` throws |
| ShibbolethFilter.StoredEmailFirst | src/main/java/com/liferay/portal/servlet/filters/sso/shibboleth/ShibbolethFilter.java:160-167 | the stored e-mail is the text before the first `;`; it is absent (the array index throws) exactly when the value is non-empty and only semicolons |
| ShibbolethFilter.NameOrPlaceholder | src/main/java/com/liferay/portal/servlet/filters/sso/shibboleth/ShibbolethFilter.java:171-187 | definition: a null first name or surname is stored as its placeholder, any other as read |
| ShibbolethFilter.LastSegment | src/main/java/com/liferay/portal/servlet/filters/sso/shibboleth/ShibbolethFilter.java:214-215 | the segment kept holds no `:`, and an entry without `:` is kept whole |
| ShibbolethFilter.LastSegmentFails | src/main/java/com/liferay/portal/servlet/filters/sso/shibboleth/ShibbolethFilter.java:214-215 | taking the last `:`-segment throws exactly for a non-empty entry made only of colons |
| ShibbolethFilter.LastSegmentOfEntitlement | src/main/java/com/liferay/portal/servlet/filters/sso/shibboleth/ShibbolethFilter.java:206-207 | a namespaced entitlement `ns:value` is cut to `value` |
| ShibbolethFilter.LastSegmentTrailingColon | src/main/java/com/liferay/portal/servlet/filters/sso/shibboleth/ShibbolethFilter.java:206-207 | because `split` drops trailing empty strings, `a:b:` is cut as `a:b` is |
| ShibbolethFilter.MultiValuedTruncation | src/main/java/com/liferay/portal/servlet/filters/sso/shibboleth/ShibbolethFilter.java:202-211 | definition: each `;`-entry cut to its last `:`-segment, re-joined with `;` in order; none when an entry throws |
| ShibbolethFilter.SegmentsEntryWise | src/main/java/com/liferay/portal/servlet/filters/sso/shibboleth/ShibbolethFilter.java:202-211 | the truncated entries correspond one to one and in order to the entries; truncation fails exactly when one entry fails |
| ShibbolethFilter.TruncateMultiValued | src/main/java/com/liferay/portal/servlet/filters/sso/shibboleth/ShibbolethFilter.java:202-211 | the index loop that appends segments and separators builds exactly the entries' last segments joined with `;` |
| ShibbolethFilter.StoredAffiliation | src/main/java/com/liferay/portal/servlet/filters/sso/shibboleth/ShibbolethFilter.java:189-219 | definition: "" for a null affiliation; with truncation on and a `:` present the namespaces cut, entry by entry when multi-valued; verbatim otherwise |
| ShibbolethFilter.AffiliationVerbatim | src/main/java/com/liferay/portal/servlet/filters/sso/shibboleth/ShibbolethFilter.java:189-193 | a null affiliation is stored as ""; with truncation off or no `:` the affiliation is stored verbatim |
| ShibbolethFilter.SingleEntryTruncation | src/main/java/com/liferay/portal/servlet/filters/sso/shibboleth/ShibbolethFilter.java:213-216 | an affiliation without `;` is treated as a single entry, through the same last-segment rule |
| ShibbolethFilter.TruncatedAffiliation | src/main/java/com/liferay/portal/servlet/filters/sso/shibboleth/ShibbolethFilter.java:193-217 | a truncated affiliation holds no `:`; splitting a multi-valued one at `;` gives back each entry's last segment in the original order |
| ShibbolethFilter.OnlyColonsThrow | src/main/java/com/liferay/portal/servlet/filters/sso/shibboleth/ShibbolethFilter.java:214-215 | the affiliation `:` makes the truncation throw |
| ShibbolethFilter.ReadAttributes | src/main/java/com/liferay/portal/servlet/filters/sso/shibboleth/ShibbolethFilter.java:106-122 | definition: the five attributes, each read by `getHeader` from the namespace the configuration selects |
| ShibbolethFilter.Normalise | src/main/java/com/liferay/portal/servlet/filters/sso/shibboleth/ShibbolethFilter.java:125-219 | definition: the stored forms of the five attributes once a login is present |
| ShibbolethFilter.NormaliseLogin | src/main/java/com/liferay/portal/servlet/filters/sso/shibboleth/ShibbolethFilter.java:131-155 | the reassignments of the login give the transformed login when the transform is on, the login itself when off |
| ShibbolethFilter.NormaliseEmail | src/main/java/com/liferay/portal/servlet/filters/sso/shibboleth/ShibbolethFilter.java:160-167 | the e-mail steps give the first `;`-separated address, or the exception they throw on a null e-mail or an all-`;` one |
| ShibbolethFilter.NormaliseAffiliation | src/main/java/com/liferay/portal/servlet/filters/sso/shibboleth/ShibbolethFilter.java:189-217 | the affiliation steps give the stored affiliation, or the exception thrown for an entry of only colons |
| ShibbolethFilter.Write | src/main/java/com/liferay/portal/servlet/filters/sso/shibboleth/ShibbolethFilter.java:158-221 | definition: the session writes in source order (login, e-mail or its exception, both names, affiliation or its exception) and the return value |
| ShibbolethFilter.Extract | src/main/java/com/liferay/portal/servlet/filters/sso/shibboleth/ShibbolethFilter.java:97-225 | definition: no change and false for a session holding a login or a request without one; the writes otherwise |
| ShibbolethFilter.ExtractData | src/main/java/com/liferay/portal/servlet/filters/sso/shibboleth/ShibbolethFilter.java:97-225 | the return value or exception and the session afterwards are those `Extract` describes |
| ShibbolethFilter.ExtractSkipsCachedSession | src/main/java/com/liferay/portal/servlet/filters/sso/shibboleth/ShibbolethFilter.java:222-224 | a session that already holds a login makes `extractData` return false and leaves the session unchanged |
| ShibbolethFilter.ExtractWithoutLogin | src/main/java/com/liferay/portal/servlet/filters/sso/shibboleth/ShibbolethFilter.java:125-129 | a null login attribute gives false and writes no session key |
| ShibbolethFilter.WriteStoresLogin | src/main/java/com/liferay/portal/servlet/filters/sso/shibboleth/ShibbolethFilter.java:158-219 | once past the login check, the login is always stored, the result is never false, and keys other than the five are untouched |
| ShibbolethFilter.ExtractWithoutEmail | src/main/java/com/liferay/portal/servlet/filters/sso/shibboleth/ShibbolethFilter.java:158-161 | a null e-mail throws a NullPointerException with only the login key written |
| ShibbolethFilter.ExtractWritesOnlySessionKeys | src/main/java/com/liferay/portal/servlet/filters/sso/shibboleth/ShibbolethFilter.java:158-219 | `extractData` never changes a session key other than the five |
| ShibbolethFilter.WriteSucceeded | src/main/java/com/liferay/portal/servlet/filters/sso/shibboleth/ShibbolethFilter.java:158-221 | on success the session gains exactly the five keys, each holding its normalised value |
| ShibbolethFilter.ExtractSucceeded | src/main/java/com/liferay/portal/servlet/filters/sso/shibboleth/ShibbolethFilter.java:104-221 | true is returned only for a session without a login and a request with one, after the e-mail and the affiliation were normalised without exception |
| ShibbolethFilter.NormalisedValues | src/main/java/com/liferay/portal/servlet/filters/sso/shibboleth/ShibbolethFilter.java:131-219 | the stored login is the (transformed) login; the e-mail is the first address and fails exactly when it is absent or only `;`; neither stored name is ever null; the affiliation fails exactly when truncation throws |
| ShibbolethFilter.ExtractOncePerSession | src/main/java/com/liferay/portal/servlet/filters/sso/shibboleth/ShibbolethFilter.java:98-158 | after any extraction that got past the login check, the session holds a login, so every later request of that session is skipped |
| Validator.IsNull | src/main/java/com/liferay/portal/servlet/filters/sso/shibboleth/ShibbolethFilter.java:125 | definition of Liferay's null test: null, or empty or `null` once spaces are removed |
| JavaLang.Split | src/main/java/com/liferay/portal/servlet/filters/sso/shibboleth/ShibbolethFilter.java:202-206 | Java `split` with a one-character delimiter: the delimiter-free pieces, in order, with trailing empty pieces dropped |
| JavaLang.LongToStringRoundTrip | src/main/java/com/liferay/portal/security/shibboleth/auth/ShibbolethAutoLogin.java:88 | the decimal form of a user id reads back as that id, with a leading `-` exactly for negative ids |
| PortalServices.FindUserByScreenName | src/main/java/com/liferay/portal/security/shibboleth/auth/ShibbolethAutoLogin.java:119 | a user found has that company and screen name; none is found only when no user has them |
| PortalServices.FindUserByEmail | src/main/java/com/liferay/portal/security/shibboleth/auth/ShibbolethAutoLogin.java:128 | a user found has that company and e-mail address; none is found only when no user has them |
| PortalServices.AddUser | src/main/java/com/liferay/portal/security/shibboleth/auth/ShibbolethAutoLogin.java:248-251 | definition: `addUser` rejects a screen name or e-mail address the company already uses with `UserExistsException`, and otherwise appends the user under the next id with the generated password |
| PortalServices.AddUserAppendsOne | src/main/java/com/liferay/portal/security/shibboleth/auth/ShibbolethAutoLogin.java:248-251 | `addUser` appends exactly one user with the requested values under an unused id, or changes nothing when it rejects a screen name or address already in use; ids stay valid |
| PortalServices.ReplaceUser | src/main/java/com/liferay/portal/security/shibboleth/auth/ShibbolethAutoLogin.java:282 | `updateUser` replaces the record with the user's id and no other |
| PortalServices.FindRole | src/main/java/com/liferay/portal/security/shibboleth/auth/ShibbolethAutoLogin.java:332 | a role found belongs to the company and has the name; none is found only when the company has no such role |
| PortalServices.FindRoleById | src/main/java/com/liferay/portal/security/shibboleth/auth/ShibbolethAutoLogin.java:346 | a role found has the id; none is found only when no role has it |
| PortalServices.CompanyRoles | src/main/java/com/liferay/portal/security/shibboleth/auth/ShibbolethAutoLogin.java:337 | exactly the roles of the company |
| PortalServices.SubtypeRoles | src/main/java/com/liferay/portal/security/shibboleth/auth/ShibbolethAutoLogin.java:315-318 | exactly the roles, of any company, with the configured subtype |
| PortalServices.RoleIds | src/main/java/com/liferay/portal/security/shibboleth/auth/ShibbolethAutoLogin.java:305-313 | collecting ids one role at a time gives one id per role, each at its role's position |
| PortalServices.MaxId | src/main/java/com/liferay/portal/security/shibboleth/auth/ShibbolethAutoLogin.java:339-340 | the last element of the sorted ids is one of the ids and no id exceeds it |
| PortalServices.ReassignedOneUser | src/main/java/com/liferay/portal/security/shibboleth/auth/ShibbolethAutoLogin.java:298-299 | after unsetting then adding, the user holds exactly the added roles plus the old roles not removed; other users are untouched |
| ShibbolethAutoLogin.CreateUser | src/main/java/com/liferay/portal/security/shibboleth/auth/ShibbolethAutoLogin.java:184-215 | definition: null with no user added when login, e-mail, first name or surname is missing from the session; otherwise `addUser` with the hook's fixed arguments |
| ShibbolethAutoLogin.CreateUserFromSessionValues | src/main/java/com/liferay/portal/security/shibboleth/auth/ShibbolethAutoLogin.java:184-215 | null is returned and no user added exactly when login, e-mail, first name or surname is null; otherwise one user carrying those four values is added, or the rejection escapes with the stores unchanged |
| ShibbolethAutoLogin.NewUserRequestSettings | src/main/java/com/liferay/portal/security/shibboleth/auth/ShibbolethAutoLogin.java:220-251 | users are added with an automatic password, the given screen name, no e-mail, creator 0, US locale, male, born 1 January 1970 |
| ShibbolethAutoLogin.SessionUpdate | src/main/java/com/liferay/portal/security/shibboleth/auth/ShibbolethAutoLogin.java:254-280 | definition: the user with e-mail, first and last name replaced by the session's values that are not null |
| ShibbolethAutoLogin.SessionUpdateFields | src/main/java/com/liferay/portal/security/shibboleth/auth/ShibbolethAutoLogin.java:254-280 | e-mail, first and last name take the session's values where those are not null; id, company, screen name and password never change |
| ShibbolethAutoLogin.SessionUpdateIdempotent | src/main/java/com/liferay/portal/security/shibboleth/auth/ShibbolethAutoLogin.java:254-280 | updating again from the same session changes nothing |
| ShibbolethAutoLogin.UpdateUser | src/main/java/com/liferay/portal/security/shibboleth/auth/ShibbolethAutoLogin.java:254-284 | definition: the session-updated user, written with `updateUser` only when some field changed |
| ShibbolethAutoLogin.UpdateUserKeepsKeys | src/main/java/com/liferay/portal/security/shibboleth/auth/ShibbolethAutoLogin.java:281-283 | the store changes exactly when a field changed, and then only in the user's own record; ids stay valid |
| ShibbolethAutoLogin.ResolveRole | src/main/java/com/liferay/portal/security/shibboleth/auth/ShibbolethAutoLogin.java:329-364 | definition: one turn of the role loop: the existing role; or, with auto-creation on, a new role one above the company's largest id; or nothing |
| ShibbolethAutoLogin.ResolveRoles | src/main/java/com/liferay/portal/security/shibboleth/auth/ShibbolethAutoLogin.java:320-368 | definition: the role loop over the names, from first to last, collecting the roles found or made |
| ShibbolethAutoLogin.ResolveRoleAppends | src/main/java/com/liferay/portal/security/shibboleth/auth/ShibbolethAutoLogin.java:329-364 | an existing role is taken as is; otherwise a created role is appended as a regular role without subtype whose class PK is its id; with creation off the store is unchanged |
| ShibbolethAutoLogin.CompanyMaxId | src/main/java/com/liferay/portal/security/shibboleth/auth/ShibbolethAutoLogin.java:337-340 | the last of the company's sorted role ids bounds every role id of the company and belongs to one of its roles |
| ShibbolethAutoLogin.CreatedRoleNumbering | src/main/java/com/liferay/portal/security/shibboleth/auth/ShibbolethAutoLogin.java:337-357 | a created role's id is one above the company's largest role id, and it takes the class name id of the role holding that id |
| ShibbolethAutoLogin.ResolveRolesAppends | src/main/java/com/liferay/portal/security/shibboleth/auth/ShibbolethAutoLogin.java:328-367 | resolving the affiliation only appends to the role store, keeps role ids distinct, and appends only regular roles of the company without subtype |
| ShibbolethAutoLogin.ResolveRolesFound | src/main/java/com/liferay/portal/security/shibboleth/auth/ShibbolethAutoLogin.java:320-367 | at most one role per name; every role returned is stored, belongs to the company and bears one of the names |
| ShibbolethAutoLogin.ResolveRolesFindsExisting | src/main/java/com/liferay/portal/security/shibboleth/auth/ShibbolethAutoLogin.java:331-333 | a role the company had under one of the names is always returned |
| ShibbolethAutoLogin.AffiliationScenario | src/main/java/com/liferay/portal/security/shibboleth/auth/ShibbolethAutoLogin.java:328-364 | `staff;guest` with `staff` present returns staff and a new `guest` numbered above the company's roles, ignoring another company's larger id |
| ShibbolethAutoLogin.SyncRoles | src/main/java/com/liferay/portal/security/shibboleth/auth/ShibbolethAutoLogin.java:286-303 | definition: nothing when role auto-assignment is off; without a user the sync throws after resolving (and perhaps creating) the roles; otherwise the user loses the roles of the configured subtype and gains the affiliation's roles |
| ShibbolethAutoLogin.SyncRolesAssignment | src/main/java/com/liferay/portal/security/shibboleth/auth/ShibbolethAutoLogin.java:286-299 | afterwards the user holds a role exactly when the affiliation resolved to it, or they held it and it has not the configured subtype; other users and the user store are untouched |
| ShibbolethAutoLogin.CreatedRolesHaveNoSubtype | src/main/java/com/liferay/portal/security/shibboleth/auth/ShibbolethAutoLogin.java:350-357 | a role the role loop adds to the store is a regular role of the company with no subtype |
| ShibbolethAutoLogin.AutoCreatedRolesSurvive | src/main/java/com/liferay/portal/security/shibboleth/auth/ShibbolethAutoLogin.java:286-299 | a stored role without subtype (as every role the hook creates is) that a user held is still held after any later sync whose configured subtype is not empty |
| ShibbolethAutoLogin.LookupUser | src/main/java/com/liferay/portal/security/shibboleth/auth/ShibbolethAutoLogin.java:117-131 | definition: the user found by screen name under screen-name authentication and by session e-mail otherwise |
| ShibbolethAutoLogin.LookupUserByAuthType | src/main/java/com/liferay/portal/security/shibboleth/auth/ShibbolethAutoLogin.java:117-131 | screen-name authentication looks up the login, e-mail authentication the session e-mail; any other type finds nobody |
| ShibbolethAutoLogin.FindOrMakeUser | src/main/java/com/liferay/portal/security/shibboleth/auth/ShibbolethAutoLogin.java:116-163 | definition: the user found (and updated when updating is on), or else created from the session or imported from the directory |
| ShibbolethAutoLogin.Resolve | src/main/java/com/liferay/portal/security/shibboleth/auth/ShibbolethAutoLogin.java:103-172 | definition: `loginFromSession`: the user `FindOrMakeUser` settles on, then the role sync, whose exception is swallowed |
| ShibbolethAutoLogin.ResolveNeedsIdentity | src/main/java/com/liferay/portal/security/shibboleth/auth/ShibbolethAutoLogin.java:107-125 | without a login, or under e-mail authentication without an e-mail, null is returned with no store changed and no role sync |
| ShibbolethAutoLogin.ResolveFoundUser | src/main/java/com/liferay/portal/security/shibboleth/auth/ShibbolethAutoLogin.java:117-138 | a found user is returned, updated from the session only when updating is on; no user is added and the importer is not consulted |
| ShibbolethAutoLogin.ResolveCreatesFromSession | src/main/java/com/liferay/portal/security/shibboleth/auth/ShibbolethAutoLogin.java:140-146 | with auto-creation on the importer is never consulted; a missing session value ends in a NullPointerException with the stores unchanged; a created user is appended |
| ShibbolethAutoLogin.ResolveImports | src/main/java/com/liferay/portal/security/shibboleth/auth/ShibbolethAutoLogin.java:147-161 | the importer is called with a blank e-mail under screen-name authentication and a blank screen name otherwise; an imported user is returned, a null or a `SystemException` gives no user, and a `NoSuchUserException` or any other exception escapes with the stores unchanged |
| ShibbolethAutoLogin.ResolveSyncsWithoutUser | src/main/java/com/liferay/portal/security/shibboleth/auth/ShibbolethAutoLogin.java:165-169 | with no user resolved the sync still runs, its exception is swallowed and the roles it created stay |
| ShibbolethAutoLogin.FindOrMakeUserValid | src/main/java/com/liferay/portal/security/shibboleth/auth/ShibbolethAutoLogin.java:116-163 | finding, updating or creating the user keeps user ids distinct and below the counter |
| ShibbolethAutoLogin.SyncRolesValid | src/main/java/com/liferay/portal/security/shibboleth/auth/ShibbolethAutoLogin.java:286-303 | a role sync keeps role ids distinct |
| ShibbolethAutoLogin.ResolvePreservesValid | src/main/java/com/liferay/portal/security/shibboleth/auth/ShibbolethAutoLogin.java:103-172 | `loginFromSession` keeps the stores' ids valid |
| ShibbolethAutoLogin.LoginSpec | src/main/java/com/liferay/portal/security/shibboleth/auth/ShibbolethAutoLogin.java:67-101 | definition: `login`: null when the plugin is off; the resolved user's id, password and "true"; null for no user or an escaped `NoSuchUserException`; any other exception wrapped |
| ShibbolethAutoLogin.LoginCredentials | src/main/java/com/liferay/portal/security/shibboleth/auth/ShibbolethAutoLogin.java:82-98 | credentials are returned exactly when the plugin is on and a user was resolved: three strings, the first reading back as the user id, then the password and "true"; an `AutoLoginException` is raised exactly when the plugin is on and the session is missing or resolution failed with anything but `NoSuchUserException` |
| ShibbolethAutoLogin.LoginSwallowsNoSuchUser | src/main/java/com/liferay/portal/security/shibboleth/auth/ShibbolethAutoLogin.java:93-94 | an importer `NoSuchUserException` ends the login with null credentials, not an `AutoLoginException`, and leaves the stores unchanged |
| ShibbolethAutoLogin.LoginDisabled | src/main/java/com/liferay/portal/security/shibboleth/auth/ShibbolethAutoLogin.java:78-80 | with the plugin off, null is returned and nothing changes |
| ShibbolethAutoLogin.AutoLogin.AddUser | src/main/java/com/liferay/portal/security/shibboleth/auth/ShibbolethAutoLogin.java:220-252 | stores and returns what `addUser` does with the fixed arguments |
| ShibbolethAutoLogin.AutoLogin.CreateUserFromSession | src/main/java/com/liferay/portal/security/shibboleth/auth/ShibbolethAutoLogin.java:184-215 | the guard chain returns and stores what `CreateUser` describes |
| ShibbolethAutoLogin.AutoLogin.UpdateUserFromSession | src/main/java/com/liferay/portal/security/shibboleth/auth/ShibbolethAutoLogin.java:254-284 | the setters and the `modified` flag give the session-updated user, stored iff it changed |
| ShibbolethAutoLogin.AutoLogin.RoleListToLongArray | src/main/java/com/liferay/portal/security/shibboleth/auth/ShibbolethAutoLogin.java:305-313 | the array has the list's length and holds each role's id at that role's index |
| ShibbolethAutoLogin.AutoLogin.GetOrCreateRole | src/main/java/com/liferay/portal/security/shibboleth/auth/ShibbolethAutoLogin.java:330-362 | one turn of the loop finds, creates or skips the role as `ResolveRole` describes |
| ShibbolethAutoLogin.AutoLogin.GetRolesFromSession | src/main/java/com/liferay/portal/security/shibboleth/auth/ShibbolethAutoLogin.java:320-368 | the loop over the split affiliation returns the roles and leaves the role store `ResolveRoles` describes; a null affiliation returns none |
| ShibbolethAutoLogin.AutoLogin.UpdateUserRolesFromSession | src/main/java/com/liferay/portal/security/shibboleth/auth/ShibbolethAutoLogin.java:286-303 | the sync leaves the assignments and roles `SyncRoles` describes |
| ShibbolethAutoLogin.AutoLogin.CreateUserFromSessionResult | src/main/java/com/liferay/portal/security/shibboleth/auth/ShibbolethAutoLogin.java:143-146 | a null created user fails with a NullPointerException at its first use |
| ShibbolethAutoLogin.AutoLogin.LoginFromSession | src/main/java/com/liferay/portal/security/shibboleth/auth/ShibbolethAutoLogin.java:103-172 | the lookup, update, creation or import and the role sync leave the stores and return the user `Resolve` describes |
| ShibbolethAutoLogin.AutoLogin.Login | src/main/java/com/liferay/portal/security/shibboleth/auth/ShibbolethAutoLogin.java:67-101 | returns the credentials, null (including for an escaped `NoSuchUserException`) or the wrapped exception `LoginSpec` describes, and leaves the stores it describes |

## Left out

- The filter's logout branch and `isFilterEnabled`: servlet dispatch, redirects and the filter chain.
- The configuration provider and its failure: the configuration is a parameter. The lookup in `loginFromSession` reads the same configuration as `login`.
- `PortalUtil.getCompanyId` and `PrefsPropsUtil`: the company id and the authentication type are parameters.
- Logging, `handleException` and the debug stack traces: they change no state.
- Concurrency: two requests racing for the same new role id, or interleaving `unsetUserRoles` and `addUserRoles`, are not modelled. The model is single-threaded.
- The regular-expression machinery of `replaceAll`: the patterns are literal characters and the replacements contain no `$` or `\`.
- The case-insensitive header lookup of servlet containers: headers are matched exactly.
- Liferay's normalisation of screen names and e-mail addresses in lookups (lower-casing): lookups match exactly.
- `Validator.isNull` is Liferay's own code and not part of this model. Its behaviour is written out as Liferay defines it.
- The directory importer's own storage: a user it imports is not added to the modelled user store.
- `ShibbolethAutoLogin.AutoLogin.RoleListToLongArray`: does not state that the array is newly allocated. Its callers only read it.
- `Arrays.sort` on the role ids: only its effect on the last element, the largest id, is modelled (`MaxId`).
- `PortalServices.AddUser`: checks only duplicate screen names and e-mail addresses in the company. Liferay's other validation (screen-name syntax, reserved names, e-mail format) is not modelled. Only the automatic-password path is modelled, since the hook always asks for it.
- The group, organisation, role and user-group id arrays and the service context passed to `addUser` are all null. They are not modelled.
- A role's description, title map and the other fields the hook does not set.
- `updateUser` and `addRole` failures other than an id collision: they are not modelled.
- `getRoles` throwing `SystemException`: not modelled.
- Java `long` overflow: role id max + 1 and user ids are unbounded integers.

/** The per-company settings of the plugin and the session keys under which the
    filter hands the asserted identity to the auto-login hook. */
module ShibbolethConfig {

  /** `ShibbolethConfiguration`: one value per company, read-only to the plugin.
      The header names default to "" and every flag to false. */
  datatype Configuration = Configuration(
    enabled: bool,
    logoutEnabled: bool,
    headersEnabled: bool,
    affiliationTruncateEnabled: bool,
    screenameTransformEnabled: bool,
    importFromLDAP: bool,
    userHeader: string,
    userEmailHeader: string,
    firstname: string,
    surname: string,
    userHeaderAffiliation: string,
    autoCreateUsers: bool,
    autoUpdateUsers: bool,
    autoCreateRole: bool,
    autoAssignUserRole: bool,
    autoAssignUserRoleSubType: string,
    logoutUrl: string,
    loginUrl: string)

  /** The settings a company has before anyone configures it. */
  const DefaultConfiguration := Configuration(
    false, false, false, false, false, false, "", "", "", "", "",
    false, false, false, false, "", "/Shibboleth.sso/Logout?return=/", "/c/portal/login/shibboleth")

  // `ShibbolethPropsKeys`: the five session keys.
  const SHIBBOLETH_LOGIN := "shibboleth.login"
  const SHIBBOLETH_HEADER_EMAIL := "shibboleth.header.email"
  const SHIBBOLETH_HEADER_FIRSTNAME := "shibboleth.header.firstname"
  const SHIBBOLETH_HEADER_SURNAME := "shibboleth.header.surname"
  const SHIBBOLETH_HEADER_AFFILIATION := "shibboleth.header.affiliation"
}

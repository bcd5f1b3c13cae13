/**
 * The settings the authentication core reads (the `Settings` struct of the
 * `ldap` package; the `LdapConfig` struct of the command-line tool holds a
 * subset of the same fields).
 */
module Config {

  datatype Settings = Settings(
    bindDN: string,            // DN of the service account, may hold `%s`
    bindPassword: string,      // password of the service account
    userBase: string,          // search base for users
    userDN: string,            // DN template for direct binding, holds `%s`
    attributeCN: string,       // attribute holding the common name
    attributeUsername: string, // attribute holding the username
    attributeName: string,     // attribute holding the first name
    attributeSurname: string,  // attribute holding the surname
    attributeMail: string,     // attribute holding the mail address
    attributesInBind: bool,    // fetch attributes before binding as the user
    filter: string,            // user filter template, holds `%s`
    adminFilter: string,       // filter marking administrators, empty when unused
    groupEnabled: bool,        // whether group membership is a gate
    groupDN: string,           // group search base
    groupFilter: string,       // group filter
    groupMemberUID: string,    // group attribute listing the members
    userUID: string)           // user attribute listed in groups, or "dn"

  /** The `userUID` value saying group members are listed by their full DN. */
  const DnMode: string := "dn"
}

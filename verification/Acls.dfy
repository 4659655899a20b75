/** internal/model/config.go: the access control list of one app. */
module Acls {
  datatype IpLists = IpLists(allow: seq<string>, block: seq<string>, bypass: seq<string>)

  datatype App = App(
    domain: string,
    usersAllow: string,
    usersBlock: string,
    oauthWhitelist: string,
    oauthGroups: string,
    ldapGroups: string,
    ip: IpLists,
    pathAllow: string,
    pathBlock: string)
}

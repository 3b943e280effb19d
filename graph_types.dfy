/** The directory-service records the normalisation layer consumes, as they
    arrive from the Microsoft Graph client library. Only the fields the core
    reads are kept. Times are whole minutes on one fixed clock. */
module Graph {
  import opened Wrappers

  datatype User = User(
    id: string,
    displayName: Option<string>,
    userPrincipalName: Option<string>,
    mail: Option<string>)

  datatype Group = Group(id: string, displayName: Option<string>)

  datatype Device = Device(
    id: string,
    deviceId: Option<string>,
    displayName: Option<string>,
    trustType: Option<string>)

  datatype DirectoryRole = DirectoryRole(
    id: string,
    displayName: Option<string>,
    roleTemplateId: Option<string>)

  datatype Domain = Domain(id: string)

  /** `MicrosoftGraphApiHelper.DeviceOwnerGroupDisplayNames`: the directory
      roles whose members administer every Azure AD joined device. */
  const DeviceOwnerGroupDisplayNames: seq<string> := ["Company Administrator", "Cloud Device Administrator"]

  /** A member or owner as the directory returns it: its runtime type decides
      how it is normalised. */
  datatype DirectoryObject =
    | UserObject(user: User)
    | GroupObject(group: Group)
    | DeviceObject(device: Device)
    | OtherObject(objectId: string)

  datatype DeviceDetail = DeviceDetail(deviceId: Option<string>, displayName: Option<string>)

  datatype SignInLocation = SignInLocation(city: Option<string>, countryOrRegion: Option<string>)

  /** One sign-in event of the audit log. */
  datatype SignIn = SignIn(
    userId: Option<string>,
    userDisplayName: Option<string>,
    clientAppUsed: Option<string>,
    resourceDisplayName: Option<string>,
    createdDateTime: Option<int>,
    deviceDetail: Option<DeviceDetail>,
    location: Option<SignInLocation>)

  datatype ModifiedProperty = ModifiedProperty(displayName: Option<string>, newValue: Option<string>)

  datatype TargetResource = TargetResource(id: Option<string>, modifiedProperties: seq<ModifiedProperty>)

  /** One "Consent to application" entry of the directory audit log. */
  datatype DirectoryAudit = DirectoryAudit(targetResources: seq<TargetResource>)

  /** One OAuth2 permission grant (a JSON token of the beta endpoint). A
      property holding JSON null reads as None; a property the token lacks
      altogether is not represented. */
  datatype PermissionGrant = PermissionGrant(
    clientId: Option<string>,
    scope: Option<string>,
    principalId: Option<string>,
    expiryTime: int)

  /** One service principal (a JSON token of the beta endpoint). A
      property holding JSON null reads as None; a property the token lacks
      altogether is not represented. */
  datatype ServicePrincipal = ServicePrincipal(
    id: Option<string>,
    appId: Option<string>,
    displayName: Option<string>,
    appDisplayName: Option<string>,
    homepage: Option<string>,
    appOwnerOrganizationId: Option<string>)
}

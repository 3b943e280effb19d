/** Models/InteractiveLogon.cs: a sign-in reduced to the fields the sinks use.
    Every property is get-only, so the logon is an immutable value. */
module Logons {
  import opened Wrappers
  import opened Text
  import opened Graph

  datatype InteractiveLogon = InteractiveLogon(
    deviceDetail: DeviceDetail,
    location: Option<SignInLocation>,
    userId: Option<string>,
    userDisplayName: Option<string>,
    deviceId: Option<string>,
    deviceDisplayName: Option<string>,
    creationDateTime: int)

  /** The constructor. It dereferences `deviceDetail` and upper-cases
      `userDisplayName`, so a null in either throws; the device fields are
      copied out of the detail and the rest is stored as given. */
  function NewInteractiveLogon(
    deviceDetail: Option<DeviceDetail>,
    location: Option<SignInLocation>,
    userId: Option<string>,
    creationDateTime: int,
    userDisplayName: Option<string>): (r: Result<InteractiveLogon>)
    ensures r.Ok? <==> deviceDetail.Some? && userDisplayName.Some?
    ensures r.Throws? ==> r.error == NullReference
    ensures r.Ok? ==>
      && r.value.deviceDetail == deviceDetail.value
      && r.value.deviceId == deviceDetail.value.deviceId
      && r.value.deviceDisplayName == deviceDetail.value.displayName
      && r.value.location == location
      && r.value.userId == userId
      && r.value.creationDateTime == creationDateTime
      && r.value.userDisplayName == Some(Upper(userDisplayName.value))
  {
    if deviceDetail.None? || userDisplayName.None? then Throws(NullReference)
    else
      Ok(InteractiveLogon(
        deviceDetail.value, location, userId, Some(Upper(userDisplayName.value)),
        deviceDetail.value.deviceId, deviceDetail.value.displayName, creationDateTime))
  }
}

/**
 * What the flow receives from, and sends to, the Discord, Plex and Tautulli clients.
 * The clients themselves are not modelled: each call's result is an input of the handler.
 */
module Upstream {

  /** A Plex PIN as returned by `get_pin`. */
  datatype Pin = Pin(id: nat, code: string)

  /** The answer to `pin_claim`: the Plex access token the approved PIN yields. */
  datatype PinClaim = PinClaim(authToken: string)

  /** One entry of Plex's device list for the claimed token. */
  datatype Device = Device(clientIdentifier: string, name: string)

  /** The Discord OAuth2 token response. `expiresIn` is whole seconds. */
  datatype DiscordToken = DiscordToken(
    accessToken: string,
    refreshToken: Option<string>,
    scopes: Option<seq<string>>,
    expiresIn: Option<nat>)

  datatype DiscordProfile = DiscordProfile(id: string, username: string)

  datatype PlexProfile = PlexProfile(id: int, username: string)

  /** One row of Tautulli's watch-time statistics. `totalTime` is in seconds. */
  datatype WatchStat = WatchStat(totalPlays: int, totalTime: int)

  /** Discord linked-role metadata. */
  datatype Metadata = Metadata(totalWatches: int, hoursWatched: int)

  datatype MetadataUpdate = MetadataUpdate(platformName: string, metadata: Metadata)

  import opened Results

  /** Some device of the list has the given client identifier. */
  predicate HasDevice(devices: seq<Device>, serverId: string)
  {
    exists i :: 0 <= i < |devices| && devices[i].clientIdentifier == serverId
  }

  /** `devices.iter().find(|d| d.client_identifier == server_id)`: the first matching device. */
  function FindDevice(devices: seq<Device>, serverId: string): (r: Option<Device>)
    ensures r.Some? <==> HasDevice(devices, serverId)
    ensures r.Some? ==> exists i :: 0 <= i < |devices| && devices[i] == r.value
                                  && r.value.clientIdentifier == serverId
                                  && forall j :: 0 <= j < i ==> devices[j].clientIdentifier != serverId
  {
    if devices == [] then None
    else if devices[0].clientIdentifier == serverId then Some(devices[0])
    else
      var r := FindDevice(devices[1..], serverId);
      assert forall i :: 0 <= i < |devices[1..]| ==> devices[1..][i] == devices[i + 1];
      if r.Some? then
        var i :| 0 <= i < |devices[1..]| && devices[1..][i] == r.value
                 && forall j :: 0 <= j < i ==> devices[1..][j].clientIdentifier != serverId;
        assert devices[i + 1] == r.value;
        r
      else
        r
  }
}

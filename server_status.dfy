/**
  ServerStatus: the EVE server's player count, software version and VIP flag, validated
  on construction.
*/
module ServerStatusModel {
  import opened Common

  datatype ServerStatus = ServerStatus(playerCount: int32, serverVersion: string, isVIP: bool)

  /**
    The constructor: a null or empty version raises ArgumentNullException, checked first;
    then a negative player count raises ArgumentOutOfRangeException.
  */
  function NewServerStatus(playerCount: int32, version: Option<string>, vip: bool): (r: Outcome<ServerStatus>)
    ensures r.Ok? <==> version.Some? && version.value != "" && playerCount >= 0
    ensures (version.None? || version.value == "") ==> r == Throw(ArgumentNull("version", NULL_MESSAGE))
    ensures version.Some? && version.value != "" && playerCount < 0 ==> r == Throw(ArgumentOutOfRange("playerCount"))
    ensures r.Ok? ==> r.value.playerCount >= 0 && r.value.playerCount == playerCount
    ensures r.Ok? ==> Some(r.value.serverVersion) == version && r.value.isVIP == vip
  {
    if version.None? || version.value == "" then Throw(ArgumentNull("version", NULL_MESSAGE))
    else if playerCount < 0 then Throw(ArgumentOutOfRange("playerCount"))
    else Ok(ServerStatus(playerCount, version.value, vip))
  }

  /** ToString: "Server v", the version, a space, the player count's digits, " online". */
  function ToString(s: ServerStatus): string {
    "Server v" + s.serverVersion + " " + IntToDecimal(s.playerCount) + " online"
  }

  /**
    A constructed status renders its player count without a sign: the text after the
    version is a space, the count's decimal digits (which read back as the count), then
    " online".
  */
  lemma ToStringShowsCount(playerCount: int32, version: string, vip: bool)
    requires version != "" && playerCount >= 0
    ensures var st := NewServerStatus(playerCount, Some(version), vip).value;
      var text := ToString(st);
      var digits := NatToDecimal(playerCount);
      && text == "Server v" + version + " " + digits + " online"
      && DigitsValue(digits) == playerCount
  {
    DecimalRoundTrip(playerCount);
  }
}

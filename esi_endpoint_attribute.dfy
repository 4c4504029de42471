/**
  EsiEndpointAttribute: the descriptor attached to each ESI endpoint, holding its URL path,
  the permissions it needs, its default cache interval and whether its response can be
  localised.
*/
module EsiEndpointAttribute {
  import opened Common

  /** The attribute's properties; defaultCache is a TimeSpan, kept here in ticks. */
  datatype EsiEndpointAttribute = EsiEndpointAttribute(
    url: string,
    permissions: string,
    defaultCache: Time,
    lingualResponse: bool)

  /**
    The three-argument constructor: URL and permissions stored verbatim, the cache given
    in seconds, and LingualResponse false until an attribute usage sets it.
  */
  function WithPermissions(url: string, permissions: string, defaultCache: int32): (a: EsiEndpointAttribute)
    ensures a.url == url && a.permissions == permissions
    ensures a.defaultCache / TICKS_PER_SECOND == defaultCache && a.defaultCache % TICKS_PER_SECOND == 0
    ensures !a.lingualResponse
  {
    EsiEndpointAttribute(url, permissions, defaultCache * TICKS_PER_SECOND, false)
  }

  /** The two-argument constructor: the three-argument one with no permissions. */
  function Create(url: string, defaultCache: int32): (a: EsiEndpointAttribute)
    ensures a.url == url && a.permissions == ""
    ensures a.defaultCache / TICKS_PER_SECOND == defaultCache && a.defaultCache % TICKS_PER_SECOND == 0
    ensures !a.lingualResponse
  {
    WithPermissions(url, "", defaultCache)
  }

  /** Setting LingualResponse (the only settable property) leaves everything else as it was. */
  function SetLingualResponse(a: EsiEndpointAttribute, lingual: bool): (b: EsiEndpointAttribute)
    ensures b.lingualResponse == lingual
    ensures b.url == a.url && b.permissions == a.permissions && b.defaultCache == a.defaultCache
  {
    a.(lingualResponse := lingual)
  }
}

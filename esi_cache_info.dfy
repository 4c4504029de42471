/**
  EsiCacheInfo: the caching information returned with a valid ESI result, an ETag that is
  never null and an expiry time.
*/
module EsiCacheInfo {
  import opened Common

  class EsiCacheInfo {
    /** The backing field of the ETag property; a string here, so never null. */
    var eTag: string
    /** The Expires property, in UTC ticks. */
    var expires: Time

    /** The constructor goes through the normalising ETag setter and stores Expires as given. */
    constructor (etag: Option<string>, expires: Time)
      ensures eTag == etag.GetOr("")
      ensures this.expires == expires
    {
      this.eTag := etag.GetOr("");
      this.expires := expires;
    }

    /** The ETag setter: null is stored as the empty string, anything else verbatim. */
    method SetETag(value: Option<string>)
      modifies this`eTag
      ensures value.None? ==> eTag == ""
      ensures value.Some? ==> eTag == value.value
    {
      eTag := value.GetOr("");
    }

    /** Equals: another cache info whose ETag is ordinal-equal; Expires plays no part. */
    predicate Equals(other: EsiCacheInfo?)
      reads this, other
    {
      other != null && other.eTag == eTag
    }

    /** GetHashCode: the ETag's string hash (a parameter, since .NET randomises it per process). */
    function GetHashCode(strHash: string -> int32): int32
      reads this
    {
      strHash(eTag)
    }
  }

  /** Equality ignores Expires, is reflexive and symmetric, and equal cache infos hash equally. */
  lemma EqualsByETag(a: EsiCacheInfo, b: EsiCacheInfo, strHash: string -> int32)
    ensures a.Equals(a) && !a.Equals(null)
    ensures a.Equals(b) <==> a.eTag == b.eTag
    ensures a.Equals(b) <==> b.Equals(a)
    ensures a.Equals(b) ==> a.GetHashCode(strHash) == b.GetHashCode(strHash)
  {
  }
}

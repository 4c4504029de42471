/**
  EsiResult and EsiResultStatus: the outcome of an ESI request, with its status, payload,
  exception, cache information, page count and server time.
*/
module EsiResult {
  import opened Common
  import opened EsiCacheInfo

  /** The eight possible statuses of a completed ESI request. */
  datatype EsiResultStatus =
    | Error
    | AccessError
    | NotFoundError
    | ServerError
    | NetworkError
    | ErrorCount
    | NoNewData
    | OK

  /** The ETag and Expires of a cache info, as values. */
  datatype CacheView = CacheView(eTag: string, expires: Time)

  /** Everything an EsiResult holds, as a value. */
  datatype ResultView<T> = ResultView(
    status: EsiResultStatus,
    result: Option<T>,
    exception: Option<Exn>,
    cacheInfo: Option<CacheView>,
    pages: int32,
    serverTime: Time)

  /** What the constructor produces: Pages 1, ServerTime the current time, no cache info. */
  function Fresh<T>(status: EsiResultStatus, result: Option<T>, e: Option<Exn>, now: Time): (v: ResultView<T>)
    ensures v.status == status && v.result == result && v.exception == e
    ensures v.pages == 1 && v.serverTime == now && v.cacheInfo.None?
  {
    ResultView(status, result, e, None, 1, now)
  }

  /**
    The result object. Status, Result and Exception are get-only and so are constants;
    CacheInfo, Pages and ServerTime can be assigned after construction. A result of
    default(T) is None.
  */
  class EsiResult<T> {
    const status: EsiResultStatus
    const result: Option<T>
    const exception: Option<Exn>
    var cacheInfo: EsiCacheInfo?
    var pages: int32
    var serverTime: Time

    /** The constructor, with `now` standing for DateTime.UtcNow. */
    constructor (status: EsiResultStatus, result: Option<T>, e: Option<Exn>, now: Time)
      ensures View() == Fresh(status, result, e, now)
    {
      this.status := status;
      this.result := result;
      this.exception := e;
      this.cacheInfo := null;
      this.pages := 1;
      this.serverTime := now;
    }

    function View(): ResultView<T>
      reads this, cacheInfo
    {
      ResultView(status, result, exception,
        if cacheInfo == null then None else Some(CacheView(cacheInfo.eTag, cacheInfo.expires)),
        pages, serverTime)
    }

    method SetCacheInfo(info: EsiCacheInfo?)
      modifies this`cacheInfo
      ensures cacheInfo == info
    {
      cacheInfo := info;
    }

    method SetPages(p: int32)
      modifies this`pages
      ensures pages == p
    {
      pages := p;
    }

    method SetServerTime(t: Time)
      modifies this`serverTime
      ensures serverTime == t
    {
      serverTime := t;
    }
  }
}

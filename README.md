# EVEMon ESI lookup pipeline and model types, in Dafny

This project models the core of EVEMon 5's `EVEMon.Common` library.

- **Entity resolver** (`EntityLookupService`). It maps integer IDs of characters, corporations and alliances to cached names and affiliations. A miss returns a placeholder and queues the ID for a bulk lookup.
- **Batching engine** (`AbstractLookupService`). It drains a FIFO queue of IDs in passes of at most `MaxLength` and hands each pass to a request.
- **ESI request handler** (`EsiRequestHandler`). It maps HTTP status codes to `EsiResultStatus` and reads integer headers. It tracks the error-limit budget, floors the page count and turns a response, or a failed send, into an `EsiResult`.
- **URL builder** (`EsiRequestHeaders`). It builds the request URL from the endpoint table (`EsiEndpoints`, `EsiEndpointAttribute`): a trailing-slash path rule plus ordered `lang`, `datasource` and caller parameters.
- **Small value types**: `EsiCacheInfo` and `EsiResult`.
- **String and encoding helpers** of `ExtensionMethods`, and `Util.URLSafeBase64`. The latter is RFC 4648 Base64 (section 4), translated to the base64url alphabet (section 5), with the padding dropped (section 3.2).
- **Model classes**:
  - the skill types `SkillLevel`, `TrainedSkill` and `AllLevelSkillList`;
  - `CharacterAttributes`, `ItemType` and `IndustryJobFactory`;
  - the resolver's result records `CharacterBase`, `Alliance` and `CorporationBase`;
  - `Corporation` and `ServerStatus`;
  - the enumeration mappings of `EsiModelConverters`.

## Conventions

- **Exceptions.** A .NET exception is a value: `Outcome<T>` is `Ok(value)` or `Throw(error)`, and `Exn` lists the exception kinds the core raises. A method that changes state and may throw returns `Option<Exn>`.
- **Null.** A reference the source null-checks is an `Option`.
- **Integer widths.** `int` and `long` are the subset types `int32` and `int64`. `Wrap32` writes out 32-bit wrap-around where hash codes overflow. `LongHash` is `Int64.GetHashCode`: the low word xor the high word.
- **Time.** A `DateTime` is an integer count of ticks, 10 000 000 per second, with 0 standing for `DateTime.MinValue`. `DateTime.UtcNow` is a `now`, `received` or `created` parameter.
- **Process-dependent hashes.** `String.GetHashCode` is randomised per process, so it is a parameter `strHash`.
- **Classes.** A class the source updates in place is a Dafny `class` with the same fields. Its methods are proved against a pure step function on a `View()` of the fields. The lemmas about the step functions carry the promised properties.
- **String formatting.** The `.F` extension is taken to be `string.Format`. A `{n:D}` placeholder of a non-negative integer renders its plain decimal digits, `IntToDecimal` in `Common`; `{0}` of a string is the string itself.
- **Module layout.** There is one module per source file. The `Common` module holds the shared definitions: `Option`, `Outcome`, `Exn`, the integer types, decimal rendering of integers and `char.IsWhiteSpace`.

## Model

| member | source | states |
|---|---|---|
| ExtensionMethods.ThrowIfNull | EVEMon.Common/ExtensionMethods.cs:230-233 | throws ArgumentNullException naming the parameter iff the object is null; the message is the given one or "Value cannot be null." |
| ExtensionMethods.S | EVEMon.Common/ExtensionMethods.cs:29 | "s" iff the value is above 1, "" otherwise |
| ExtensionMethods.GetNumericFormatString | EVEMon.Common/ExtensionMethods.cs:18-22 | throws ArgumentOutOfRangeException("decimals") iff decimals < 0; otherwise "N" followed by digits whose value is decimals, with no leading zero |
| ExtensionMethods.IndexOfFrom | EVEMon.Common/ExtensionMethods.cs:95-99 | the first position at or after `from` where the text matches (ordinal, or ordinal-ignore-case under the runtime's upper-case mapping), or -1 when there is none |
| ExtensionMethods.Contains | EVEMon.Common/ExtensionMethods.cs:95-99 | a null source or text raises ArgumentNullException; otherwise true iff the text occurs at some position of the source |
| ExtensionMethods.ContainsEmptyAndSelf | EVEMon.Common/ExtensionMethods.cs:95-99 | every string contains "" and itself, in both comparison modes |
| ExtensionMethods.OrdinalImpliesIgnoreCase | EVEMon.Common/ExtensionMethods.cs:95-99 | an ordinal match is also an ignore-case match, whatever the case mapping |
| ExtensionMethods.IgnoreCaseIsOrdinalOfMapped | EVEMon.Common/ExtensionMethods.cs:95-99 | an ignore-case search gives the same answer as an ordinal search in the two upper-cased strings |
| ExtensionMethods.BreakIndex | EVEMon.Common/ExtensionMethods.cs:113-120 | the position of the first '\r' or '\n', or the length when there is none |
| ExtensionMethods.ReadLine | EVEMon.Common/ExtensionMethods.cs:113-120 | StringReader.ReadLine: none exactly at end of input; otherwise a break-free line and a strictly shorter remainder |
| ExtensionMethods.NewLinesToLineBreaks | EVEMon.Common/ExtensionMethods.cs:106-123 | the loop returns null and whitespace-only input unchanged, and otherwise the lines read by ReadLine joined with "<br/>" plus the newline |
| ExtensionMethods.FinalBreakAddsNoLine | EVEMon.Common/ExtensionMethods.cs:113-120 | a final "\n" adds no line, so no trailing "<br/>" |
| ExtensionMethods.NoBreaksUnchanged | EVEMon.Common/ExtensionMethods.cs:106-123 | input without a line break is one line and comes back unchanged |
| ExtensionMethods.LineThenRest | EVEMon.Common/ExtensionMethods.cs:113-120 | a line followed by "\r\n", "\r" or "\n" is read as that line, then the rest |
| ExtensionMethods.SkipWhiteSuffix | EVEMon.Common/ExtensionMethods.cs:132-136 | what is skipped is a prefix made only of the whitespace NumberStyles.Integer allows, and what is left starts with something else |
| ExtensionMethods.DigitRunMaximal | EVEMon.Common/ExtensionMethods.cs:132-136 | the digit run is all decimal digits and is not followed by another digit, so it is the longest such prefix |
| ExtensionMethods.ParseInteger | EVEMon.Common/ExtensionMethods.cs:132-149 | a parse result is always inside the requested range |
| ExtensionMethods.ParseRendered | EVEMon.Common/ExtensionMethods.cs:132-149 | the decimal rendering of n, with optional surrounding whitespace, parses to n iff n is in range, and fails otherwise |
| ExtensionMethods.ParseBlank | EVEMon.Common/ExtensionMethods.cs:132-136 | a string of whitespace only (including "") does not parse |
| ExtensionMethods.TryParseInt | EVEMon.Common/ExtensionMethods.cs:132-136 | null throws ArgumentNullException; otherwise (true, n) iff the text is an Int32 in NumberStyles.Integer form, else (false, 0) |
| ExtensionMethods.TryParseLong | EVEMon.Common/ExtensionMethods.cs:145-149 | the same for Int64 |
| ExtensionMethods.TryParseIntExamples | EVEMon.Common/ExtensionMethods.cs:132-136 | "" gives false; every Int32, rendered bare or with surrounding whitespace, parses back to itself |
| ExtensionMethods.TryParseOverflow | EVEMon.Common/ExtensionMethods.cs:132-149 | 2147483648 fails as an int but parses as a long |
| ExtensionMethods.UnderscoresToDashes | EVEMon.Common/ExtensionMethods.cs:197-200 | null throws; otherwise the same length, every '_' becomes '-', and every other character is kept |
| ExtensionMethods.UnderscoresToSpaces | EVEMon.Common/ExtensionMethods.cs:209-212 | null throws; otherwise the same length, every '_' becomes ' ', and every other character is kept |
| Util.URLSafeBase64 | EVEMon.Common/Utility/Util.cs:65-68 | null throws ArgumentNullException; otherwise the unpadded base64url encoding of the bytes |
| Util.UrlSafeOfBase64 | EVEMon.Common/Utility/Util.cs:66-67 | the Replace chain applied to standard Base64 gives exactly the unpadded base64url encoding |
| Util.UnpaddedUrlLength | EVEMon.Common/Utility/Util.cs:65-68 | the output length is 4·(n div 3) plus 0, 2 or 3 for n mod 3 = 0, 1 or 2 |
| Util.UrlSafeAlphabet | EVEMon.Common/Utility/Util.cs:66-67 | the output is in the base64url alphabet and holds no '+', '/' or '=' |
| Util.UrlSafeEmpty | EVEMon.Common/Utility/Util.cs:66 | no bytes encode to "" |
| Util.UrlDecodeRoundTrip | EVEMon.Common/Utility/Util.cs:65-68 | decoding the output gives back the bytes, so the encoding loses nothing |
| EsiCacheInfo.EsiCacheInfo.constructor | EVEMon.Common/Esi/EsiCacheInfo.cs:27-30 | the ETag goes through the normalising setter and Expires is stored as given |
| EsiCacheInfo.EsiCacheInfo.SetETag | EVEMon.Common/Esi/EsiCacheInfo.cs:11-18 | null stores "", any other value is stored verbatim |
| EsiCacheInfo.EqualsByETag | EVEMon.Common/Esi/EsiCacheInfo.cs:32-39 | equality is ordinal ETag equality (Expires ignored), reflexive, symmetric and false for null; equal infos hash equally |
| EsiResult.Fresh | EVEMon.Common/Esi/EsiResult.cs:40-46 | a new result keeps status, result and exception, has one page, the current server time and no cache info |
| EsiResult.EsiResult.constructor | EVEMon.Common/Esi/EsiResult.cs:40-46 | the constructed object's state is Fresh of its arguments |
| EsiResult.EsiResult.SetCacheInfo | EVEMon.Common/Esi/EsiResult.cs:12 | assigns CacheInfo and nothing else |
| EsiResult.EsiResult.SetPages | EVEMon.Common/Esi/EsiResult.cs:23 | assigns Pages and nothing else |
| EsiResult.EsiResult.SetServerTime | EVEMon.Common/Esi/EsiResult.cs:33 | assigns ServerTime and nothing else |
| EsiEndpointAttribute.WithPermissions | EVEMon.Common/Abstractions/EsiEndpointAttribute.cs:13-18 | URL and permissions stored verbatim; DefaultCache is exactly the given seconds; LingualResponse false |
| EsiEndpointAttribute.Create | EVEMon.Common/Abstractions/EsiEndpointAttribute.cs:9-11 | the same with Permissions "" |
| EsiEndpointAttribute.SetLingualResponse | EVEMon.Common/Abstractions/EsiEndpointAttribute.cs:23 | sets LingualResponse only; URL, permissions and cache unchanged |
| EsiEndpoints.AttributeOf | EVEMon.Common/Esi/EsiEndpoints.cs:11-24 | an attribute exists iff the endpoint declares one; every URL starts and ends with "/", and none is lingual or needs permissions |
| EsiEndpoints.EndpointValue | EVEMon.Common/Esi/EsiEndpoints.cs:7-25 | every endpoint is a ulong value; the declared members are exactly the values 0, 1 and 2 |
| EsiEndpoints.EndpointName | EVEMon.Common/Esi/EsiRequestHeaders.cs:62 | a declared endpoint renders as its member name, starting with a capital letter; any other value renders as its decimal digits, which read back as the value |
| EsiEndpoints.EndpointNameInjective | EVEMon.Common/Esi/EsiRequestHeaders.cs:62 | two endpoints render alike iff they are the same, so the missing-URL message names the endpoint |
| EsiEndpoints.EndpointTable | EVEMon.Common/Esi/EsiEndpoints.cs:11-24 | UniverseNames and CharactersAffiliation are cached 720 s, ContractsPublic 30 s, with their URLs |
| EsiRequestHeaders.HeadersToString | EVEMon.Common/Esi/EsiRequestHeaders.cs:89-91 | ToString is the endpoint's enum name, so two requests render alike iff they are for the same endpoint |
| EsiRequestHeaders.EsiRequestHeaders.constructor | EVEMon.Common/Esi/EsiRequestHeaders.cs:44-51 | no cache info, Json, Tranquility, no parameters, path "" |
| EsiRequestHeaders.EsiRequestHeaders.AddParameter | EVEMon.Common/Esi/EsiRequestHeaders.cs:37 | Dictionary.Add on Parameters: throws the duplicate-key error iff the key is present (nothing changes); otherwise appends the pair |
| EsiRequestHeaders.EsiRequestHeaders.GetEsiUrl | EVEMon.Common/Esi/EsiRequestHeaders.cs:58-87 | the loop-built URL equals the EsiUrl specification: path, then lang, datasource and caller parameters, or the first error raised |
| EsiRequestHeaders.AddParam | EVEMon.Common/Esi/EsiRequestHeaders.cs:81-82 | adding throws DuplicateKey iff the key is already present, else appends and adds the key |
| EsiRequestHeaders.AddAllOk | EVEMon.Common/Esi/EsiRequestHeaders.cs:81-82 | fresh distinct keys are all added, in order |
| EsiRequestHeaders.AppendDistinct | EVEMon.Common/Esi/EsiRequestHeaders.cs:72-82 | fresh distinct keys leave the parameter keys distinct |
| EsiRequestHeaders.AddAllErrors | EVEMon.Common/Esi/EsiRequestHeaders.cs:81-82 | the only error adding can raise is the duplicate-key error |
| EsiRequestHeaders.AddAllDuplicate | EVEMon.Common/Esi/EsiRequestHeaders.cs:81-82 | the first caller key that repeats an earlier key raises DuplicateKey for that key |
| EsiRequestHeaders.AddAllKeys | EVEMon.Common/Esi/EsiRequestHeaders.cs:81-82 | the resulting keys are the starting keys plus the caller's |
| EsiRequestHeaders.UrlPath | EVEMon.Common/Esi/EsiRequestHeaders.cs:63-71 | the scheme is https; the path is URL + (Path or ""), with "/" appended iff it is non-empty and does not end in "/" |
| EsiRequestHeaders.DeclaredEndpointPath | EVEMon.Common/Esi/EsiRequestHeaders.cs:63-67 | for a declared endpoint the path starts and ends with "/" |
| EsiRequestHeaders.MissingAttribute | EVEMon.Common/Esi/EsiRequestHeaders.cs:59-62 | InvalidOperationException is raised iff the endpoint has no attribute |
| EsiRequestHeaders.FixedParamsKeys | EVEMon.Common/Esi/EsiRequestHeaders.cs:74-80 | "lang" iff the language is not English and the endpoint is lingual; "datasource" iff not Tranquility; lang first |
| EsiRequestHeaders.EsiUrlQuery | EVEMon.Common/Esi/EsiRequestHeaders.cs:72-85 | the URL is built iff every parameter can be added; the query is present iff there is at least one |
| EsiRequestHeaders.QueryParameters | EVEMon.Common/Esi/EsiRequestHeaders.cs:72-85 | with distinct non-reserved caller keys, the query is lang/datasource followed by the caller's pairs in order, with distinct keys |
| EsiRequestHeaders.DuplicateParameter | EVEMon.Common/Esi/EsiRequestHeaders.cs:78-82 | a caller "datasource" key on a non-Tranquility request raises the duplicate-key error |
| EsiRequestHeaders.NoLangOnDeclaredEndpoints | EVEMon.Common/Esi/EsiRequestHeaders.cs:74-76 | no request to a declared endpoint carries "lang" unless the caller adds it |
| EsiRequestHandler.ToEsiStatusCode | EVEMon.Common/Esi/EsiRequestHandler.cs:41-74 | each status class holds exactly its codes (200; 204/304; 500/502/503/504; 404/410; 401/403; 420); everything else is Error; never NetworkError |
| EsiRequestHandler.HeaderInt | EVEMon.Common/Esi/EsiRequestHandler.cs:29-31 | a header value counts only when it trims and parses to a non-negative int |
| EsiRequestHandler.LastValidIsLast | EVEMon.Common/Esi/EsiRequestHandler.cs:25-34 | none iff no value is valid; otherwise the value of the last valid header |
| EsiRequestHandler.LastValidSnoc | EVEMon.Common/Esi/EsiRequestHandler.cs:27-32 | one more header value replaces the result iff that value is valid |
| EsiRequestHandler.IntParamNonNegative | EVEMon.Common/Esi/EsiRequestHandler.cs:25-34 | an extracted header integer is never negative |
| EsiRequestHandler.GetIntParam | EVEMon.Common/Esi/EsiRequestHandler.cs:25-34 | the loop returns the last valid value of the named header, or none |
| EsiRequestHandler.InitialBudget | EVEMon.Common/Esi/EsiRequestHandler.cs:138-139 | the count starts at the threshold 8 and the refresh at MinValue, so the budget is not exceeded at any later time |
| EsiRequestHandler.BudgetRules | EVEMon.Common/Esi/EsiRequestHandler.cs:168-174 | the count changes only when Remain yields a value; the refresh becomes received + min(reset, 120) s only when Reset yields one |
| EsiRequestHandler.ErrorWindow | EVEMon.Common/Esi/EsiRequestHandler.cs:105-109 | IsErrorCountExceeded: a budget blocked now was blocked at every earlier time; nothing is blocked after the refresh time or with a count below the threshold |
| EsiRequestHandler.BudgetWindow | EVEMon.Common/Esi/EsiRequestHandler.cs:105-109 | after both headers, the budget is exceeded iff count ≥ 8 and the clamped refresh has not passed; never more than 120 s after the response |
| EsiRequestHandler.PageCount | EVEMon.Common/Esi/EsiRequestHandler.cs:176-177 | the X-Pages value when at least 1, otherwise 1 |
| EsiRequestHandler.ResponseResults | EVEMon.Common/Esi/EsiRequestHandler.cs:175-206 | non-OK gives that status, no payload and one page; a parsed OK gives payload, cache info (ETag or "", Expires or received) and pages; a JsonException gives Error |
| EsiRequestHandler.ResponseErrors | EVEMon.Common/Esi/EsiRequestHandler.cs:162-206 | handling throws only for null headers, or an OK response with null content or a failed read |
| EsiRequestHandler.ResponseNeverNetworkError | EVEMon.Common/Esi/EsiRequestHandler.cs:175-206 | a handled response is never a NetworkError |
| EsiRequestHandler.Caught | EVEMon.Common/Esi/EsiRequestHandler.cs:237-246 | IO, timeout and cancellation exceptions become a NetworkError result carrying the exception; all others propagate |
| EsiRequestHandler.NoNetworkFailureEscapes | EVEMon.Common/Esi/EsiRequestHandler.cs:218-248 | no network failure propagates out of a query, and every NetworkError result carries one |
| EsiRequestHandler.UrlErrors | EVEMon.Common/Esi/EsiRequestHandler.cs:220 | building the URL raises only the missing-URL or duplicate-key errors |
| EsiRequestHandler.GetDelivered | EVEMon.Common/Esi/EsiRequestHandler.cs:218-248 | a GET returns the handled response, or a NetworkError for a failed send |
| EsiRequestHandler.EsiRequestHandler.constructor | EVEMon.Common/Esi/EsiRequestHandler.cs:129-146 | the initial budget, English, the default timeout, not disposed |
| EsiRequestHandler.EsiRequestHandler.SetTimeout | EVEMon.Common/Esi/EsiRequestHandler.cs:119-127 | a positive value is stored; others are ignored |
| EsiRequestHandler.EsiRequestHandler.HandleResponse | EVEMon.Common/Esi/EsiRequestHandler.cs:162-208 | updates the budget from the headers and returns a fresh result whose state is the ResponseOutcome, or its error |
| EsiRequestHandler.EsiRequestHandler.UpdateBudget | EVEMon.Common/Esi/EsiRequestHandler.cs:166-174 | the budget fields become BudgetAfter of the old ones |
| EsiRequestHandler.EsiRequestHandler.Query | EVEMon.Common/Esi/EsiRequestHandler.cs:218-300 | the four query methods: the result is QueryOutcome (null checks, URL, disposed client, send, handling, catch) and the budget follows the handled response |
| EsiRequestHandler.EsiRequestHandler.SendAndHandle | EVEMon.Common/Esi/EsiRequestHandler.cs:233-246 | the try block and its catch clauses: the budget changes only when a delivered response with headers is handled; the result is the handled result, or the NetworkError result for an I/O, timeout or cancellation failure, and any other exception is raised |
| EsiRequestHandler.EsiRequestHandler.Dispose | EVEMon.Common/Esi/EsiRequestHandler.cs:305-311 | disposes the client on the first call only |
| EsiRequestHandler.ParsedResult | EVEMon.Common/Esi/EsiRequestHandler.cs:178-200 | the OK result: payload, cache info from ETag/Expires, pages, server time from Date or now |
| EsiRequestHandler.CaughtResult | EVEMon.Common/Esi/EsiRequestHandler.cs:237-246 | a fresh result object for the Caught outcome |
| AbstractLookupService.Removed | EVEMon.Common/Esi/AbstractLookupService.cs:66-67 | a pass removes nothing only from an empty queue, and never more than is queued |
| AbstractLookupService.Collected | EVEMon.Common/Esi/AbstractLookupService.cs:66-67 | the IDs passed on are a FIFO prefix of the queue, at most MaxLength of them |
| AbstractLookupService.StepsKeepConsistent | EVEMon.Common/Esi/AbstractLookupService.cs:46-92 | queueing, a pass, a resume and Dispose all preserve the service invariant |
| AbstractLookupService.QueueAppends | EVEMon.Common/Esi/AbstractLookupService.cs:46-49 | the ID is appended at the tail (duplicates kept) and the worker signalled; after the worker exits it throws ObjectDisposedException; nothing else changes |
| AbstractLookupService.PassTakesPrefix | EVEMon.Common/Esi/AbstractLookupService.cs:66-67 | with more than MaxLength pending, MaxLength + 1 IDs leave the queue and only MaxLength are requested; otherwise all are |
| AbstractLookupService.PassRequestsOrSettles | EVEMon.Common/Esi/AbstractLookupService.cs:68-77 | a non-empty pass makes exactly one request and sets cleared; an empty pass fires the event iff cleared was set, resets it and waits |
| AbstractLookupService.SettleFiresOnce | EVEMon.Common/Esi/AbstractLookupService.cs:68-73 | consecutive empty passes fire the event at most once |
| AbstractLookupService.CancelledWorkerExits | EVEMon.Common/Esi/AbstractLookupService.cs:63-79 | a cancelled worker exits after its iteration and disposes `ready` |
| AbstractLookupService.DisposeIdempotent | EVEMon.Common/Esi/AbstractLookupService.cs:86-92 | Dispose cancels and signals on its first call; a second call changes nothing; the queue and requests are untouched |
| AbstractLookupService.LookupService.constructor | EVEMon.Common/Esi/AbstractLookupService.cs:16-20 | an empty queue, idle worker, nothing requested |
| AbstractLookupService.LookupService.Initialize | EVEMon.Common/Esi/AbstractLookupService.cs:31-33 | starts the worker and changes nothing else |
| AbstractLookupService.LookupService.Queue | EVEMon.Common/Esi/AbstractLookupService.cs:46-49 | the new state and thrown exception are QueueStep of the old state |
| AbstractLookupService.LookupService.Drain | EVEMon.Common/Esi/AbstractLookupService.cs:66-67 | the inner dequeue loop returns Collected and leaves the queue after Removed IDs |
| AbstractLookupService.LookupService.Pass | EVEMon.Common/Esi/AbstractLookupService.cs:64-77 | the new state is PassStep of the old |
| AbstractLookupService.LookupService.Resume | EVEMon.Common/Esi/AbstractLookupService.cs:72-79 | the new state is ResumeStep of the old |
| AbstractLookupService.LookupService.LoopTest | EVEMon.Common/Esi/AbstractLookupService.cs:78-79 | the new state is LoopCheck of the old |
| AbstractLookupService.LookupService.Dispose | EVEMon.Common/Esi/AbstractLookupService.cs:86-92 | the new state is DisposeStep of the old |
| EntityLookupService.RefreshInterval | EVEMon.Common/Esi/EntityLookupService.cs:45-46 | the UniverseNames default cache of 720 s |
| EntityLookupService.EntityFactories | EVEMon.Common/Esi/EntityLookupService.cs:286-307 | alliance and corporation entities carry their ID in the right field; an unknown entity is named "Unknown", with character and corporation both the ID |
| EntityLookupService.EntityToStringNamesKind | EVEMon.Common/Esi/EntityLookupService.cs:347-357 | the rendering starts "Character #" iff the entity is a character; otherwise it is "Corporation #" or "Alliance #" followed by digits that read back as the ID |
| EntityLookupService.SeededUnknown | EVEMon.Common/Esi/EntityLookupService.cs:40-41 | after construction ID 0 resolves to ID 0 named "Unknown" with corporation 0; it needs a lookup iff it is older than the refresh interval, and no alliance, corporation or other name reply ever refreshes it, so once stale it is queued again on every lookup |
| EntityLookupService.LookupMiss | EVEMon.Common/Esi/EntityLookupService.cs:55-116 | a miss returns (id, "Unknown"); alliances and corporations queue the ID once on the name service, characters once on each service |
| EntityLookupService.AllianceHit | EVEMon.Common/Esi/EntityLookupService.cs:55-67 | a hit returns the cached name; it queues nothing iff the entry is fresh, and otherwise re-queues the ID |
| EntityLookupService.CharacterHit | EVEMon.Common/Esi/EntityLookupService.cs:75-96 | a character hit carries the cached name and corporation and alliance IDs, queueing on both services iff the entry is stale |
| EntityLookupService.LookupAfterExit | EVEMon.Common/Esi/EntityLookupService.cs:143-154 | queueing on a service whose worker has exited throws ObjectDisposedException |
| EntityLookupService.MergeNameEffect | EVEMon.Common/Esi/EntityLookupService.cs:249-268 | a character name replaces the entry keeping corporation and alliance and refreshing the time; other categories are added only if absent |
| EntityLookupService.MergeNamesKeys | EVEMon.Common/Esi/EntityLookupService.cs:249-268 | after merging a batch, the keys are the old keys plus the batch's IDs |
| EntityLookupService.MergeNamesKeepsOthers | EVEMon.Common/Esi/EntityLookupService.cs:249-268 | an entry whose ID is not in the batch is untouched |
| EntityLookupService.MergeNamesCharacter | EVEMon.Common/Esi/EntityLookupService.cs:249-262 | the last character result for an ID decides its name |
| EntityLookupService.AffiliationsKeepNames | EVEMon.Common/Esi/EntityLookupService.cs:201-210 | an affiliation merge adds the batch's characters and keeps every name that was already cached |
| EntityLookupService.AffiliationsTakeLast | EVEMon.Common/Esi/EntityLookupService.cs:201-210 | the last affiliation for a character decides its corporation and alliance (0 when absent) |
| EntityLookupService.SettleOutcomes | EVEMon.Common/Esi/EntityLookupService.cs:190-212 | a failed or non-OK reply sends exactly one error notification and leaves the map unchanged; an OK reply merges its payload |
| EntityLookupService.Decimals | EVEMon.Common/Esi/EntityLookupService.cs:189 | each ID rendered in decimal, in order |
| EntityLookupService.InsertSorted | EVEMon.Common/Esi/EntityLookupService.cs:189 | insertion keeps a strictly increasing list and adds exactly the element |
| EntityLookupService.SortedSetSpec | EVEMon.Common/Esi/EntityLookupService.cs:189 | the ID list is strictly increasing and holds exactly the requested IDs |
| EntityLookupService.IncreasingUnique | EVEMon.Common/Esi/EntityLookupService.cs:189 | two strictly increasing lists with the same elements are equal |
| EntityLookupService.IdListBody | EVEMon.Common/Esi/EntityLookupService.cs:189 | the request body is "[" + the ascending, duplicate-free IDs joined by "," + "]" |
| EntityLookupService.EntityLookupService.constructor | EVEMon.Common/Esi/EntityLookupService.cs:37-47 | the map holds only the unknown entity 0; both services are idle and empty; nothing notified |
| EntityLookupService.EntityLookupService.Initialize | EVEMon.Common/Esi/EntityLookupService.cs:133-136 | starts both workers |
| EntityLookupService.EntityLookupService.GetAlliance | EVEMon.Common/Esi/EntityLookupService.cs:55-67 | the result and name-service state are Lookup of the cached entry |
| EntityLookupService.EntityLookupService.GetCorporation | EVEMon.Common/Esi/EntityLookupService.cs:104-116 | the same for corporations |
| EntityLookupService.EntityLookupService.GetCharacter | EVEMon.Common/Esi/EntityLookupService.cs:75-96 | the result and both service states are LookupBoth of the cached entry |
| EntityLookupService.EntityLookupService.RequestNames | EVEMon.Common/Esi/EntityLookupService.cs:235-272 | the body is IdList; the map, notification count and thrown exception are Settle with the name merge |
| EntityLookupService.EntityLookupService.RequestAffiliations | EVEMon.Common/Esi/EntityLookupService.cs:188-213 | the body is IdList; the map, notification count and thrown exception are Settle with the affiliation merge |
| EntityLookupService.EntityLookupService.Dispose | EVEMon.Common/Esi/EntityLookupService.cs:160-166 | disposes both services on the first call; later calls change nothing |
| Skills.NewSkillLevel | EVEMon.Common/Models/SkillLevel.cs:64-70 | null skill throws ArgumentNullException, then a level outside 0..5 throws ArgumentOutOfRangeException; otherwise stores both |
| Skills.SkillPoints | EVEMon.Common/Models/SkillLevel.cs:57-62 | a level's SP are never negative, are 0 at level 0, and are at least the SP of every lower level |
| Skills.ScanFrom | EVEMon.Common/Models/SkillLevel.cs:33-40 | the first index from i whose threshold exceeds the SP, or 5 |
| Skills.FromSkillPoints | EVEMon.Common/Models/SkillLevel.cs:27-42 | null skill and negative SP throw; otherwise the loop returns the least level whose threshold exceeds the SP, or 5 |
| Skills.ScanIsOneAbove | EVEMon.Common/Models/SkillLevel.cs:33-39 | the scan answers one more than the level actually reached below the top threshold, and so never 0 |
| Skills.ScanCounterexample | EVEMon.Common/Models/SkillLevel.cs:33-39 | a rank 1 skill at 0 SP scans to level 1 and at 250 SP to level 2 |
| Skills.TrainedLevel | EVEMon.Common/Models/SkillLevel.cs:27-42 | the highest level whose threshold the SP reaches |
| Skills.TrainedLevelRoundTrip | EVEMon.Common/Models/SkillLevel.cs:57-62 | with strictly increasing thresholds, the level of a level's own SP is that level; the reached level never needs more SP than given |
| Skills.AsTrainedSkill | EVEMon.Common/Models/SkillLevel.cs:77-79 | the trained skill of the same skill, confirmed at this level, with this level's SP, as the TrainedSkill constructor builds it |
| Skills.SkillLevelEquality | EVEMon.Common/Models/SkillLevel.cs:81-88 | equal iff same skill and level; equal levels hash equally and distinct levels of one skill hash differently |
| Skills.NewTrainedSkill | EVEMon.Common/Models/TrainedSkill.cs:33-40 | null skill, then negative SP, then a bad confirmed level throw, in that order; otherwise stores the fields |
| Skills.EffectiveLevelAsWritten | EVEMon.Common/Models/TrainedSkill.cs:17-21 | as written, through FromSkillPoints: the SP reach every threshold below the level, and the level is 5 or its own threshold is not reached |
| Skills.EffectiveLevelAsWrittenOfLevel | EVEMon.Common/Models/TrainedSkill.cs:17-21 | as written, a skill trained exactly to a level below 5 has the next level as its effective level; level 5 stays 5 |
| Skills.EffectiveLevel | EVEMon.Common/Models/TrainedSkill.cs:17-21 | corrected: the level whose threshold the SP reaches and the next one's it does not |
| Skills.EffectiveLevelOfLevel | EVEMon.Common/Models/TrainedSkill.cs:17-21 | corrected: a skill trained exactly to a level has that level as its effective level |
| Skills.TrainedSkillEquality | EVEMon.Common/Models/TrainedSkill.cs:42-49 | equal iff same skill and SP, ignoring the confirmed level; equal ones hash equally |
| AllLevelSkillListModel.NewAllLevelSkillList | EVEMon.Common/Models/AllLevelSkillList.cs:45-51 | null list, then a level outside 0..5 throw; otherwise stores both |
| AllLevelSkillListModel.TryGetValue | EVEMon.Common/Models/AllLevelSkillList.cs:89-97 | true iff the key is present; the value is the stored skill at the fixed level, with that level's SP whatever was stored |
| AllLevelSkillListModel.Get | EVEMon.Common/Models/AllLevelSkillList.cs:11-19 | KeyNotFoundException iff the key is missing |
| AllLevelSkillListModel.LookupsAgree | EVEMon.Common/Models/AllLevelSkillList.cs:11-19 | the indexer, ContainsKey and TryGetValue agree; the value's corrected effective level is the list's level, and as written it is one level higher below 5 |
| AllLevelSkillListModel.CollectionQueries | EVEMon.Common/Models/AllLevelSkillList.cs:25-71 | Count and ContainsKey are the wrapped list's; Contains compares with the stored skill by skill and SP, so a key paired with the skill the indexer returns is contained iff the stored SP equal the level's SP |
| AllLevelSkillListModel.ReadOnly | EVEMon.Common/Models/AllLevelSkillList.cs:53-87 | every mutator throws NotImplementedException and changes nothing |
| CharacterAttributesModel.NewCharacterAttributes | EVEMon.Common/Models/CharacterAttributes.cs:43-60 | each attribute below 17 throws, checked charisma, intelligence, memory, perception, willpower in turn; otherwise all five are stored |
| CharacterAttributesModel.HashIsBase37 | EVEMon.Common/Models/CharacterAttributes.cs:68-73 | the wrapped step-by-step hash is the base-37 polynomial of the five values, wrapped once |
| CharacterAttributesModel.AttributesEquality | EVEMon.Common/Models/CharacterAttributes.cs:62-73 | equal iff all five fields are; never equal to null; equal ones hash equally |
| CharacterAttributesModel.NoUpperBound | EVEMon.Common/Models/CharacterAttributes.cs:43-60 | every attribute set whose values are all at least 17 is accepted unchanged, including values above 27 |
| CharacterAttributesModel.ToStringReadsBack | EVEMon.Common/Models/CharacterAttributes.cs:75-78 | for non-negative attributes, which includes every set the constructor accepts, two sets render alike iff they are equal |
| ItemTypeModel.SetEffect | EVEMon.Common/Models/ItemType.cs:41-46 | a write while frozen throws InvalidOperationException and changes nothing; null changes nothing; otherwise only that key is set |
| ItemTypeModel.FrozenStaysFrozen | EVEMon.Common/Models/ItemType.cs:72-74 | Freeze keeps the table; no write unfreezes; a frozen item never changes |
| ItemTypeModel.ItemType.constructor | EVEMon.Common/Models/ItemType.cs:56-66 | stores ID, name and volume; unfrozen with an empty table |
| ItemTypeModel.ItemType.Get | EVEMon.Common/Models/ItemType.cs:38-40 | the stored value, or none |
| ItemTypeModel.ItemType.Set | EVEMon.Common/Models/ItemType.cs:41-46 | the new state and thrown exception are SetStep of the old state |
| ItemTypeModel.ItemType.Freeze | EVEMon.Common/Models/ItemType.cs:72-74 | the new state is FreezeStep of the old |
| ItemTypeModel.NewItemType | EVEMon.Common/Models/ItemType.cs:56-86 | a negative volume throws; a null or empty name becomes "Unknown", so ToString is the given name or "Unknown" and never empty; starts unfrozen and empty |
| ItemTypeModel.ItemTypeEquality | EVEMon.Common/Models/ItemType.cs:76-82 | equal iff same type ID, whatever else differs; reflexive, symmetric, false for null; equal item types hash equally |
| ItemTypeModel.UnknownType | EVEMon.Common/Models/ItemType.cs:13-15 | ID 0, named "Unknown", volume 1, frozen |
| IndustryJobFactoryModel.RunsStayPositive | EVEMon.Common/Models/IndustryJobFactory.cs:56-65 | Runs stays at least 1; a value of at most 0 throws and keeps the old runs, others are stored |
| IndustryJobFactoryModel.IndustryJobFactory.constructor | EVEMon.Common/Models/IndustryJobFactory.cs:79-91 | the defaults: runs 1, no delivered, end or pause date, start date now |
| IndustryJobFactoryModel.IndustryJobFactory.SetRuns | EVEMon.Common/Models/IndustryJobFactory.cs:56-65 | runs and the thrown exception are RunsStep of the old runs |
| IndustryJobFactoryModel.NewIndustryJobFactory | EVEMon.Common/Models/IndustryJobFactory.cs:79-91 | a null blueprint throws ArgumentNullException; otherwise the defaults |
| EsiModelConverters.ToContact | EVEMon.Common/Esi/EsiModelConverters.cs:10-71 | the contact ID and standing are copied and the source is the overload's |
| EsiModelConverters.ContactMapping | EVEMon.Common/Esi/EsiModelConverters.cs:11-26 | Alliance, Corporation and Faction map to themselves; Character and anything unlisted map to Character, identically for every source |
| EsiModelConverters.JobStatusMapping | EVEMon.Common/Esi/EsiModelConverters.cs:74-95 | Active, Cancelled, Delivered, Paused and Ready map to themselves; Reverted and anything else to Reverted |
| EsiModelConverters.ToJob | EVEMon.Common/Esi/EsiModelConverters.cs:73-107 | non-positive runs throw through the Runs setter; otherwise every job field is copied, status mapped and the blueprint named "Unknown" |
| CharacterBaseModel.NewCharacterBase | EVEMon.Common/Models/CharacterBase.cs:29-32 | ID and name stored without validation |
| CharacterBaseModel.CharacterToString | EVEMon.Common/Models/CharacterBase.cs:44-46 | ToString of a constructed character is the name it was given; a null name renders as null |
| CharacterBaseModel.CharacterEquality | EVEMon.Common/Models/CharacterBase.cs:34-38 | never equal to a non-character; equal iff same ID and, for ID 0, the same name; symmetric where it does not throw |
| CharacterBaseModel.GetHashCode | EVEMon.Common/Models/CharacterBase.cs:40-42 | IDHash·37 + NameHash in 32 bits; a null name throws |
| CharacterBaseModel.HashDisagreesWithEquals | EVEMon.Common/Models/CharacterBase.cs:34-42 | two equal characters with different names can hash differently |
| CharacterBaseModel.HashCodeAgreesWithEquals | EVEMon.Common/Models/CharacterBase.cs:34-42 | with the corrected hash, equal characters hash equally |
| AllianceModel.NewAlliance | EVEMon.Common/Models/Alliance.cs:18-23 | a null or empty name throws ArgumentNullException; otherwise ID and name stored |
| AllianceModel.AllianceEquality | EVEMon.Common/Models/Alliance.cs:25-31 | equality by ID alone is an equivalence, false for null; equal alliances hash equally |
| AllianceModel.AllianceToString | EVEMon.Common/Models/Alliance.cs:33-35 | ToString is the name |
| CorporationBaseModel.NewCorporationBase | EVEMon.Common/Models/CorporationBase.cs:18-23 | a null or empty name throws ArgumentNullException; otherwise ID and name stored |
| CorporationBaseModel.CorporationBaseEquality | EVEMon.Common/Models/CorporationBase.cs:25-31 | equality by ID alone is an equivalence, false for null; equal corporations hash equally |
| CorporationBaseModel.CorporationBaseToString | EVEMon.Common/Models/CorporationBase.cs:33-35 | ToString is the name |
| CorporationModel.NewCorporation | EVEMon.Common/Models/Corporation.cs:23-29 | a null or empty name throws; a null ticker is stored as "" |
| CorporationModel.ToString | EVEMon.Common/Models/Corporation.cs:39-41 | the name, then " <", the ticker and ">" |
| CorporationModel.CorporationEquality | EVEMon.Common/Models/Corporation.cs:31-37 | equal iff same ID, symmetric, false for null; equal ones hash equally |
| CorporationModel.NullTickerRendering | EVEMon.Common/Models/Corporation.cs:23-41 | a corporation made without a ticker renders as "name <>" |
| ServerStatusModel.NewServerStatus | EVEMon.Common/Models/ServerStatus.cs:23-31 | a null or empty version throws first, then a negative player count; otherwise the fields are stored, so the count is never negative |
| ServerStatusModel.ToStringShowsCount | EVEMon.Common/Models/ServerStatus.cs:33-35 | "Server v" + version + " " + count + " online", with the count's digits reading back as the count |

## Left out

- Threads and synchronisation are sequential here. `Task.Run`, the `AutoResetEvent` wait, `CancellationTokenSource` and the atomicity of `ConcurrentDictionary`/`ConcurrentQueue` are not modelled. The worker's wait is an environment step (`ResumeStep`), and `TryAdd`/`AddOrUpdate` are plain map updates.
- HTTP and JSON are inputs. The transport is a `send` function, the response a `Response` value and the JSON body a `Body` value. `HttpClient` configuration, `ServicePointManager` and `ConfigureServicePoints` are not modelled.
- Percent-encoding is not modelled. The URL is a record of scheme, host, path and an ordered list of query pairs, not the `UriBuilder`/`FormUrlEncodedContent` string. The ESI base host is a parameter.
- `EsiCacheInfo.AddRequestHeaders` is called before a send but is not part of this model. It is not defined in any file modelled here.
- The `IdList` that a request would post is returned alongside the merge. The `PostAsync` call itself is an input.
- A header name is matched by ordinal comparison, and header values are a list per name. HTTP's case-insensitive header lookup is not modelled.
- `EntityLookupService.EntityLookupService.RequestNames` and `EntityLookupService.EntityLookupService.RequestAffiliations` read the clock once per batch. An exception they raise is returned rather than ending the worker task. Both request paths raise the same `FireIDToName` event; the model counts it instead of dispatching it.
- EntityLookupService's constructor null check of `client` is not modelled: the client is the request/reply input pair. A second call to `Initialize` starting another worker is not modelled either.
- `SkillLevel.ToString` (SkillLevel.cs:90-92) and `TrainedSkill.ToString` (TrainedSkill.cs:51-53) are not modelled: they render the skill through `Skill.ToString` and, for the level, `ToRomanString`, and the model carries a skill as its ID and point table, without its name.
- EntityLookupService.EntityToStringNamesKind: the read-back is stated for non-negative corporation and alliance IDs, which is what ESI hands out; the character case states the prefix only, not the three numbers after it.
- `IndustryJobFactory.ToString` (IndustryJobFactory.cs:97-99) is not modelled: it renders the `Blueprint` and `JobLocation` objects, which the model does not carry.
- `EsiResult.ToString` (EsiResult.cs:48-50) is not modelled: it renders `typeof(T).Name` and the parsed `Result` object, neither of which the model carries.
- `IndustryJobFactory.Build` and `IndustryJob` are not modelled: `IndustryJob` has no constructor that takes the factory. `Installer` and `JobLocation` are object references with nothing to check.
- `Contact` is reduced to the fields `ToContact` sets. Its standing validation uses floating point and constants that are not part of this model.
- Floating point is not modelled. `SkillLevel.BASE_SP`, the skill multiplier and `Math.Ceiling` are replaced by each skill's integer threshold table (`ceil(mult * BASE_SP[i])` taken as given). Doubles and decimals (`ItemType` attributes and volume, contact standing) are Dafny `real`.
- Skills.FromSkillPoints: the threshold table is only assumed nondecreasing, since the multiplier is never negative. The round trip needs it strictly increasing, i.e. a positive multiplier.
- Skills.EffectiveLevel uses the corrected level (see Findings). The level as written is `Skills.EffectiveLevelAsWritten`, which the rest of the model does not use.
- Skills.EffectiveLevelOfLevel holds of the corrected effective level only. As written, `Skills.EffectiveLevelAsWrittenOfLevel` shows the level comes out one higher below level 5.
- AllLevelSkillListModel.LookupsAgree: its clause that the handed-out skill's effective level is the list's level holds of the corrected effective level only. Its last clause states the as-written level, one higher below level 5.
- ExtensionMethods.Contains and ExtensionMethods.IndexOfFrom take the per-character upper-case mapping of OrdinalIgnoreCase as a parameter, since it comes from the runtime's Unicode tables. A Dafny `char` is a Unicode scalar value, not a UTF-16 code unit, so surrogate pairs are not modelled.
- CharacterBaseModel.GetHashCode and EsiCacheInfo.EsiCacheInfo.GetHashCode take the string hash as a parameter, since .NET randomises it per process.
- `Util.SHA256Base64`, `Util.HtmlDecode`, `Util.IsValidEmail`, `AUToMeters`/`MetersToAU`, the floating-point `TryParseInvariant` overloads and `ToNumericString` are not modelled. They are library wrappers or culture-dependent floating-point formatting.

## Findings

| source | as written | input that shows it | evidently intended | confidence | as-written member | corrected member |
|---|---|---|---|---|---|---|
| EVEMon.Common/Models/SkillLevel.cs:33-39 | the scan returns the first level whose SP threshold is NOT yet reached, so a level is reported one too high below level 5 | a rank 1 skill with 0 SP gives level 1; with 250 SP (exactly level 1) it gives level 2 | the highest level whose threshold the SP reaches, so that a level's own SkillPoints read back as that level | not executed | Skills.ScanCounterexample | Skills.TrainedLevelRoundTrip |
| EVEMon.Common/Models/TrainedSkill.cs:17-21 | EffectiveLevel goes through the same scan, so every skill an AllLevelSkillList hands out reports a level one above the list's below level 5 | a rank 1 skill trained exactly to level 2 (1415 SP) reports effective level 3 | a skill trained exactly to a level reports that level | not executed | Skills.EffectiveLevelAsWrittenOfLevel | Skills.EffectiveLevelOfLevel |
| EVEMon.Common/Models/CharacterBase.cs:34-42 | Equals compares names only when the ID is 0, but GetHashCode always mixes in the name's hash | characters with ID 1 named "A" and "BB" are equal, yet hash differently under a string hash that tells the names apart | equal characters hash equally: hash the name only for ID 0 | not executed | CharacterBaseModel.HashDisagreesWithEquals | CharacterBaseModel.HashCodeAgreesWithEquals |

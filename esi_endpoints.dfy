/**
  EsiEndpoints: the enumeration of ESI endpoints, each annotated with its URL and default
  cache interval.
*/
module EsiEndpoints {
  import opened Common
  import opened EsiEndpointAttribute

  /**
    The enumeration. C# lets an enumeration variable hold any value of its underlying type,
    so `Undeclared` stands for a value that names none of the declared members and carries
    no attribute.
  */
  datatype EsiEndpoint = UniverseNames | CharactersAffiliation | ContractsPublic | Undeclared(value: UndeclaredValue)
  {
    predicate Declared() {
      !Undeclared?
    }
  }

  /** The underlying type is ulong; the members take the values 0, 1 and 2. */
  const ULONG_LIMIT: int := 0x1_0000_0000_0000_0000

  /** The ulong values no member declares. */
  type UndeclaredValue = v: int | 3 <= v < ULONG_LIMIT witness 3

  /** The numeric value of an endpoint. */
  function EndpointValue(e: EsiEndpoint): (v: int)
    ensures 0 <= v < ULONG_LIMIT
    ensures e.Declared() <==> v <= 2
  {
    match e
    case UniverseNames => 0
    case CharactersAffiliation => 1
    case ContractsPublic => 2
    case Undeclared(v) => v
  }

  /** The attribute on the endpoint's field, or null when there is none. */
  function AttributeOf(e: EsiEndpoint): (a: Option<EsiEndpointAttribute>)
    ensures a.Some? <==> e.Declared()
    ensures a.Some? ==> |a.value.url| >= 2 && a.value.url[0] == '/' && a.value.url[|a.value.url| - 1] == '/'
    ensures a.Some? ==> !a.value.lingualResponse && a.value.permissions == ""
  {
    match e
    case UniverseNames => Some(Create("/v2/universe/names/", 720))
    case CharactersAffiliation => Some(Create("/v1/characters/affiliation/", 720))
    case ContractsPublic => Some(Create("/v1/contracts/public/", 30))
    case Undeclared(_) => None
  }

  /**
    Enum.ToString: the member name, or the number for an undeclared value; a name starts
    with a letter and a number is all digits, reading back as the value.
  */
  function EndpointName(e: EsiEndpoint): (r: string)
    ensures |r| >= 1
    ensures e.Declared() ==> 'A' <= r[0] <= 'Z'
    ensures e.Undeclared? ==> AllDigits(r) && DigitsValue(r) == e.value
  {
    match e
    case UniverseNames => "UniverseNames"
    case CharactersAffiliation => "CharactersAffiliation"
    case ContractsPublic => "ContractsPublic"
    case Undeclared(v) => DecimalRoundTrip(v); NatToDecimal(v)
  }

  /** Different endpoints render differently, so the rendering identifies the endpoint. */
  lemma EndpointNameInjective(a: EsiEndpoint, b: EsiEndpoint)
    ensures EndpointName(a) == EndpointName(b) <==> a == b
  {
  }

  /** The table itself: URL and cache interval, in seconds, of each declared endpoint. */
  lemma EndpointTable()
    ensures AttributeOf(UniverseNames).value.url == "/v2/universe/names/"
    ensures AttributeOf(UniverseNames).value.defaultCache == 720 * TICKS_PER_SECOND
    ensures AttributeOf(CharactersAffiliation).value.url == "/v1/characters/affiliation/"
    ensures AttributeOf(CharactersAffiliation).value.defaultCache == 720 * TICKS_PER_SECOND
    ensures AttributeOf(ContractsPublic).value.url == "/v1/contracts/public/"
    ensures AttributeOf(ContractsPublic).value.defaultCache == 30 * TICKS_PER_SECOND
  {
  }
}

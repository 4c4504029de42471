/**
  CharacterAttributes: a character's five base attributes. Each must be at least 17;
  there is no upper bound, since implants and boosters can push past 27.
*/
module CharacterAttributesModel {
  import opened Common

  const MAX_ATTRIB: int32 := 27
  const MIN_ATTRIB: int32 := 17

  datatype CharacterAttributes = CharacterAttributes(
    charisma: int32, intelligence: int32, memory: int32, perception: int32, willpower: int32)

  /**
    The constructor: the lower bound is checked in the order charisma, intelligence,
    memory, perception, willpower, and the first value below it names the exception.
  */
  function NewCharacterAttributes(c: int32, i: int32, m: int32, p: int32, w: int32): (r: Outcome<CharacterAttributes>)
    ensures r.Ok? <==> c >= MIN_ATTRIB && i >= MIN_ATTRIB && m >= MIN_ATTRIB && p >= MIN_ATTRIB && w >= MIN_ATTRIB
    ensures c < MIN_ATTRIB ==> r == Throw(ArgumentOutOfRange("charisma"))
    ensures c >= MIN_ATTRIB && i < MIN_ATTRIB ==> r == Throw(ArgumentOutOfRange("intelligence"))
    ensures c >= MIN_ATTRIB && i >= MIN_ATTRIB && m < MIN_ATTRIB ==> r == Throw(ArgumentOutOfRange("memory"))
    ensures c >= MIN_ATTRIB && i >= MIN_ATTRIB && m >= MIN_ATTRIB && p < MIN_ATTRIB ==>
      r == Throw(ArgumentOutOfRange("perception"))
    ensures c >= MIN_ATTRIB && i >= MIN_ATTRIB && m >= MIN_ATTRIB && p >= MIN_ATTRIB && w < MIN_ATTRIB ==>
      r == Throw(ArgumentOutOfRange("willpower"))
    ensures r.Ok? ==> r.value == CharacterAttributes(c, i, m, p, w)
  {
    if c < MIN_ATTRIB then Throw(ArgumentOutOfRange("charisma"))
    else if i < MIN_ATTRIB then Throw(ArgumentOutOfRange("intelligence"))
    else if m < MIN_ATTRIB then Throw(ArgumentOutOfRange("memory"))
    else if p < MIN_ATTRIB then Throw(ArgumentOutOfRange("perception"))
    else if w < MIN_ATTRIB then Throw(ArgumentOutOfRange("willpower"))
    else Ok(CharacterAttributes(c, i, m, p, w))
  }

  /** Equals: `other` is None for null or an object of another type. */
  predicate Equals(a: CharacterAttributes, other: Option<CharacterAttributes>) {
    && other.Some? && a.charisma == other.value.charisma && a.intelligence == other.value.intelligence
    && a.memory == other.value.memory && a.perception == other.value.perception
    && a.willpower == other.value.willpower
  }

  /** GetHashCode: the base-37 fold over the five attributes, each step in 32-bit arithmetic. */
  function GetHashCode(a: CharacterAttributes): int32 {
    var hc := Wrap32(a.charisma * 37 + a.intelligence);
    var hc := Wrap32(hc * 37 + a.memory);
    var hc := Wrap32(hc * 37 + a.perception);
    Wrap32(hc * 37 + a.willpower)
  }

  /** ToString: "c", "i", "m", "p" and "w" each followed by the attribute's digits, space-separated. */
  function ToString(a: CharacterAttributes): string {
    "c" + IntToDecimal(a.charisma) + " i" + IntToDecimal(a.intelligence) + " m" + IntToDecimal(a.memory)
      + " p" + IntToDecimal(a.perception) + " w" + IntToDecimal(a.willpower)
  }

  /**
    The hash is the attributes read as a base-37 number, reduced to 32 bits once: the
    intermediate wrap-arounds do not matter.
  */
  lemma HashIsBase37(a: CharacterAttributes)
    ensures GetHashCode(a) == Wrap32(
      a.charisma * 37 * 37 * 37 * 37 + a.intelligence * 37 * 37 * 37 + a.memory * 37 * 37
      + a.perception * 37 + a.willpower)
  {
    HashChain(a.charisma, a.intelligence, a.memory, a.perception, a.willpower);
  }

  /** The four wrapped multiply-adds of GetHashCode, on any five numbers. */
  lemma HashChain(c: int, i: int, m: int, p: int, w: int)
    ensures Wrap32(Wrap32(Wrap32(Wrap32(c * 37 + i) * 37 + m) * 37 + p) * 37 + w)
         == Wrap32(c * 37 * 37 * 37 * 37 + i * 37 * 37 * 37 + m * 37 * 37 + p * 37 + w)
  {
    var x3 := ((c * 37 + i) * 37 + m) * 37 + p;
    HashChain3(c, i, m, p);
    WrapStep(x3, w);
  }

  /** The first three wrapped multiply-adds. */
  lemma HashChain3(c: int, i: int, m: int, p: int)
    ensures Wrap32(Wrap32(Wrap32(c * 37 + i) * 37 + m) * 37 + p) == Wrap32(((c * 37 + i) * 37 + m) * 37 + p)
  {
    WrapStep(c * 37 + i, m);
    WrapStep((c * 37 + i) * 37 + m, p);
  }

  /** Wrapping the running value before a multiply-add changes nothing in the end. */
  lemma WrapStep(x: int, y: int)
    ensures Wrap32(Wrap32(x) * 37 + y) == Wrap32(x * 37 + y)
  {
    var k := WrapMultiple(x);
    var j := WrapMultiple(x * 37 + y);
    WrapUnique(Wrap32(x * 37 + y), Wrap32(x) * 37 + y, j - 37 * k);
  }

  /** Equality is field-by-field equality of the five attributes, and equal attributes hash equally. */
  lemma AttributesEquality(a: CharacterAttributes, b: CharacterAttributes)
    ensures Equals(a, Some(b)) <==> a == b
    ensures !Equals(a, None)
    ensures Equals(a, Some(b)) ==> GetHashCode(a) == GetHashCode(b)
  {
  }

  /** Only the lower bound is checked: attributes above MAX_ATTRIB are accepted as they are. */
  lemma NoUpperBound(a: CharacterAttributes)
    requires a.charisma >= MIN_ATTRIB && a.intelligence >= MIN_ATTRIB && a.memory >= MIN_ATTRIB
    requires a.perception >= MIN_ATTRIB && a.willpower >= MIN_ATTRIB
    ensures NewCharacterAttributes(a.charisma, a.intelligence, a.memory, a.perception, a.willpower) == Ok(a)
  {
  }

  // ---------------------------------------------------------------- ToString reads back

  /** The position of the first space, or the length when there is none. */
  function FirstSpace(s: string): (k: nat)
    ensures k <= |s|
  {
    if s == [] || s[0] == ' ' then 0 else 1 + FirstSpace(s[1..])
  }

  lemma {:induction false} FirstSpaceAfterDigits(d: string, x: string)
    requires AllDigits(d) && x != [] && x[0] == ' '
    ensures FirstSpace(d + x) == |d|
  {
    if d != [] {
      assert (d + x)[1..] == d[1..] + x;
      FirstSpaceAfterDigits(d[1..], x);
    }
  }

  /** Digits followed by a space split uniquely. */
  lemma DigitsThenSpace(d: string, e: string, x: string, y: string)
    requires AllDigits(d) && AllDigits(e) && x != [] && y != [] && x[0] == ' ' && y[0] == ' '
    requires d + x == e + y
    ensures d == e && x == y
  {
    FirstSpaceAfterDigits(d, x);
    FirstSpaceAfterDigits(e, y);
    assert d == (d + x)[..|d|];
    assert e == (e + y)[..|e|];
    assert x == (d + x)[|d|..];
    assert y == (e + y)[|e|..];
  }

  /** One rendered field: after the same tag, equal text means the same value and the same remainder. */
  lemma FieldReadsBack(tag: string, n: nat, m: nat, x: string, y: string)
    requires x != [] && y != [] && x[0] == ' ' && y[0] == ' '
    requires tag + (NatToDecimal(n) + x) == tag + (NatToDecimal(m) + y)
    ensures n == m && x == y
  {
    assert NatToDecimal(n) + x == (tag + (NatToDecimal(n) + x))[|tag|..];
    assert NatToDecimal(m) + y == (tag + (NatToDecimal(m) + y))[|tag|..];
    DigitsThenSpace(NatToDecimal(n), NatToDecimal(m), x, y);
    DecimalRoundTrip(n);
    DecimalRoundTrip(m);
  }

  lemma LastFieldReadsBack(tag: string, n: nat, m: nat)
    requires tag + NatToDecimal(n) == tag + NatToDecimal(m)
    ensures n == m
  {
    assert NatToDecimal(n) == (tag + NatToDecimal(n))[|tag|..];
    assert NatToDecimal(m) == (tag + NatToDecimal(m))[|tag|..];
    DecimalRoundTrip(n);
    DecimalRoundTrip(m);
  }

  /** ToString regrouped as one field after another. */
  lemma ToStringFields(a: CharacterAttributes)
    requires a.charisma >= 0 && a.intelligence >= 0 && a.memory >= 0 && a.perception >= 0 && a.willpower >= 0
    ensures ToString(a) == "c" + (NatToDecimal(a.charisma) + (" i" + (NatToDecimal(a.intelligence)
      + (" m" + (NatToDecimal(a.memory) + (" p" + (NatToDecimal(a.perception) + (" w" + NatToDecimal(a.willpower)))))))))
  {
  }

  /**
    The rendering of attributes that passed the constructor identifies them: two such
    attribute sets render alike only when they are equal.
  */
  lemma ToStringReadsBack(a: CharacterAttributes, b: CharacterAttributes)
    requires a.charisma >= 0 && a.intelligence >= 0 && a.memory >= 0 && a.perception >= 0 && a.willpower >= 0
    requires b.charisma >= 0 && b.intelligence >= 0 && b.memory >= 0 && b.perception >= 0 && b.willpower >= 0
    ensures ToString(a) == ToString(b) <==> a == b
  {
    if ToString(a) == ToString(b) {
      ToStringFields(a);
      ToStringFields(b);
      var pa := " p" + (NatToDecimal(a.perception) + (" w" + NatToDecimal(a.willpower)));
      var pb := " p" + (NatToDecimal(b.perception) + (" w" + NatToDecimal(b.willpower)));
      var ma := " m" + (NatToDecimal(a.memory) + pa);
      var mb := " m" + (NatToDecimal(b.memory) + pb);
      var ia := " i" + (NatToDecimal(a.intelligence) + ma);
      var ib := " i" + (NatToDecimal(b.intelligence) + mb);
      FieldReadsBack("c", a.charisma, b.charisma, ia, ib);
      FieldReadsBack(" i", a.intelligence, b.intelligence, ma, mb);
      FieldReadsBack(" m", a.memory, b.memory, pa, pb);
      FieldReadsBack(" p", a.perception, b.perception, " w" + NatToDecimal(a.willpower), " w" + NatToDecimal(b.willpower));
      LastFieldReadsBack(" w", a.willpower, b.willpower);
    }
  }
}

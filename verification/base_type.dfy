/**
 * The AUTOSAR base type a signal is exported with (`get_base_type_of_signal`),
 * and the two places where the reader recovers a signal's interpretation from
 * such a type: signedness from the base-type name, and the float flag from the
 * AUTOSAR 3 ENCODING element or the AUTOSAR 4 BASE-TYPE-ENCODING element.
 */
module BaseType {
  import opened Wrappers

  /** The pair `(create_type, size)`: an SW-BASE-TYPE short name and its BASE-TYPE-SIZE in bits. */
  datatype BaseTypeInfo = BaseTypeInfo(name: string, size: nat)

  /** The container widths the exporter chooses from. */
  predicate IsContainerWidth(w: int)
  {
    w == 8 || w == 16 || w == 32 || w == 64
  }

  /** The decimal digits of a container width, as they appear in a base-type name. */
  function WidthDigits(w: int): string
  {
    if w == 8 then "8" else if w == 16 then "16" else if w == 32 then "32" else "64"
  }

  /** The name prefix of an integer base type. */
  function SignPrefix(isSigned: bool): string
  {
    if isSigned then "sint" else "uint"
  }

  /** The names of the two float base types. */
  predicate IsFloatTypeName(name: string)
  {
    name == "single" || name == "double"
  }

  /**
   * `get_base_type_of_signal`: a float signal is exported as "double" when it is
   * wider than 32 bits and as "single" otherwise; an integer signal gets the
   * narrowest of 8, 16, 32 and 64 bits that holds it (64 for anything wider),
   * signed or unsigned as the signal is.
   */
  function BaseTypeOfSignal(isFloat: bool, isSigned: bool, size: int): (r: BaseTypeInfo)
    ensures IsContainerWidth(r.size)
    ensures size <= 64 ==> size <= r.size
    ensures isFloat <==> IsFloatTypeName(r.name)
    ensures |r.name| >= 5
  {
    if isFloat then
      if size > 32 then BaseTypeInfo("double", 64) else BaseTypeInfo("single", 32)
    else if size > 32 then
      if isSigned then BaseTypeInfo("sint64", 64) else BaseTypeInfo("uint64", 64)
    else if size > 16 then
      if isSigned then BaseTypeInfo("sint32", 32) else BaseTypeInfo("uint32", 32)
    else if size > 8 then
      if isSigned then BaseTypeInfo("sint16", 16) else BaseTypeInfo("uint16", 16)
    else
      if isSigned then BaseTypeInfo("sint8", 8) else BaseTypeInfo("uint8", 8)
  }

  /**
   * An integer signal of 1 to 64 bits gets the smallest container width that
   * holds it, named by its signedness followed by that width.
   */
  lemma IntegerBaseTypeIsSmallestContainer(isSigned: bool, size: int)
    requires 1 <= size <= 64
    ensures var r := BaseTypeOfSignal(false, isSigned, size);
      && size <= r.size
      && (forall w :: IsContainerWidth(w) && size <= w ==> r.size <= w)
      && r.name == SignPrefix(isSigned) + WidthDigits(r.size)
  {
  }

  /** A float signal's base type depends on its width only, never on its signedness. */
  lemma FloatBaseTypeIgnoresSignedness(isSigned: bool, size: int)
    ensures BaseTypeOfSignal(true, isSigned, size) == BaseTypeOfSignal(true, !isSigned, size)
    ensures var r := BaseTypeOfSignal(true, isSigned, size);
      (r.name == "double" <==> size > 32) && r.size == (if size > 32 then 64 else 32)
  {
  }

  /** The width of a base type is a function of its name: equal names never carry different sizes. */
  lemma SizeDeterminedByName(f1: bool, s1: bool, n1: int, f2: bool, s2: bool, n2: int)
    requires BaseTypeOfSignal(f1, s1, n1).name == BaseTypeOfSignal(f2, s2, n2).name
    ensures BaseTypeOfSignal(f1, s1, n1).size == BaseTypeOfSignal(f2, s2, n2).size
  {
  }

  /** Raised by the reader when a BASE-TYPE has an empty SHORT-NAME (`typeName[0]` on ""). */
  datatype SignednessError = EmptyBaseTypeName

  /**
   * Signedness on import: with no BASE-TYPE the signal is signed; otherwise it is
   * unsigned exactly when the base-type name starts with 'u'.
   */
  function IsSignedFromBaseType(baseTypeName: Option<string>): (r: Result<bool, SignednessError>)
    ensures r.Failure? <==> baseTypeName == Some("")
    ensures r == Success(false) <==> baseTypeName.Some? && baseTypeName.value != [] && baseTypeName.value[0] == 'u'
  {
    match baseTypeName
    case None => Success(true)
    case Some(name) => if name == [] then Failure(EmptyBaseTypeName) else Success(name[0] != 'u')
  }

  /** Exporting an integer signal's base type and reading it back keeps its signedness. */
  lemma SignednessRoundTrip(isSigned: bool, size: int)
    ensures IsSignedFromBaseType(Some(BaseTypeOfSignal(false, isSigned, size).name)) == Success(isSigned)
  {
  }

  /** A float signal's base type ("single" or "double") reads back as signed, whatever it was. */
  lemma FloatBaseTypeReadsSigned(isSigned: bool, size: int)
    ensures IsSignedFromBaseType(Some(BaseTypeOfSignal(true, isSigned, size).name)) == Success(true)
  {
  }

  /** The AUTOSAR 3 ENCODING text written for a signal: none for integers, "DOUBLE" or "SINGLE" for floats. */
  function Ar3Encoding(isFloat: bool, size: int): (enc: Option<string>)
    ensures enc.Some? <==> isFloat
    ensures enc == Some("DOUBLE") <==> isFloat && BaseTypeOfSignal(isFloat, false, size).name == "double"
  {
    if !isFloat then None else if size > 32 then Some("DOUBLE") else Some("SINGLE")
  }

  /** The float flag the reader derives from an AUTOSAR 3 ENCODING element. */
  function IsFloatFromAr3Encoding(encoding: Option<string>): (isFloat: bool)
    ensures isFloat <==> encoding == Some("SINGLE") || encoding == Some("DOUBLE")
  {
    encoding.Some? && (encoding.value == "SINGLE" || encoding.value == "DOUBLE")
  }

  /** Writing the AUTOSAR 3 encoding and reading it back keeps the float flag. */
  lemma Ar3EncodingRoundTrip(isFloat: bool, size: int)
    ensures IsFloatFromAr3Encoding(Ar3Encoding(isFloat, size)) == isFloat
  {
  }

  /** The AUTOSAR 4 SW-BASE-TYPE carries BASE-TYPE-ENCODING "IEEE754" exactly for float signals. */
  function Ar4BaseTypeEncoding(isFloat: bool): (enc: Option<string>)
    ensures enc.Some? <==> isFloat
  {
    if isFloat then Some("IEEE754") else None
  }

  /**
   * The AUTOSAR 4 reader looks at the base type's BASE-TYPE-ENCODING only when no
   * COMPU-METHOD was found for the signal (neither below the I-SIGNAL nor in the data
   * type's SW-DATA-DEF-PROPS); then "IEEE754" sets the float flag. Otherwise it keeps
   * what it had derived before.
   */
  function IsFloatFromAr4BaseType(previous: bool, compuMethodFound: bool, encoding: Option<string>): (isFloat: bool)
    ensures isFloat <==> previous || (!compuMethodFound && encoding == Some("IEEE754"))
  {
    if compuMethodFound then previous
    else if encoding.Some? && encoding.value == "IEEE754" then true
    else previous
  }

  /** Where no COMPU-METHOD is found, the AUTOSAR 4 base-type encoding round-trips the float flag. */
  lemma Ar4EncodingRoundTripWithoutCompuMethod(isFloat: bool)
    ensures IsFloatFromAr4BaseType(false, false, Ar4BaseTypeEncoding(isFloat)) == isFloat
  {
  }

  /**
   * The AUTOSAR 4 export gives every I-SIGNAL a COMPU-METHOD-REF to a COMPU-METHOD
   * it also writes, so on re-import a COMPU-METHOD is found and the encoding is never
   * read: a float signal, although written with "IEEE754", reads back as not float.
   */
  lemma Ar4FloatLostOnReimport()
    ensures Ar4BaseTypeEncoding(true) == Some("IEEE754")
    ensures !IsFloatFromAr4BaseType(false, true, Ar4BaseTypeEncoding(true))
  {
  }

  /** The reader as intended: "IEEE754" marks a float whether or not a COMPU-METHOD was found. */
  function IsFloatFromAr4BaseTypeIntended(previous: bool, encoding: Option<string>): (isFloat: bool)
    ensures isFloat <==> previous || encoding == Some("IEEE754")
    ensures !previous ==> (isFloat <==> IsFloatFromAr4BaseType(false, false, encoding))
  {
    if encoding.Some? && encoding.value == "IEEE754" then true else previous
  }

  /** With the intended reader, exporting and re-reading the AUTOSAR 4 encoding keeps the float flag. */
  lemma Ar4EncodingRoundTrip(isFloat: bool)
    ensures IsFloatFromAr4BaseTypeIntended(false, Ar4BaseTypeEncoding(isFloat)) == isFloat
  {
  }
}

/**
 * PACKING-BYTE-ORDER: how the exporter writes a signal's byte order and how the
 * reader turns the element back into the little-endian ("Intel") flag, for
 * signals and for the selector field of a multiplexed PDU.
 */
module ByteOrder {
  import opened Wrappers

  const MsbLast: string := "MOST-SIGNIFICANT-BYTE-LAST"
  const MsbFirst: string := "MOST-SIGNIFICANT-BYTE-FIRST"

  /** Export: Intel signals are written MSB-last, Motorola signals MSB-first (both AUTOSAR versions). */
  function PackingByteOrder(isLittleEndian: bool): (text: string)
    ensures text == MsbLast <==> isLittleEndian
    ensures text == MsbFirst <==> !isLittleEndian
  {
    if isLittleEndian then MsbLast else MsbFirst
  }

  /**
   * Import of a signal mapping: little-endian exactly when the element is present
   * and reads MSB-last; an absent element or any other text means big-endian.
   */
  function IsLittleEndianFromPacking(packing: Option<string>): (isLittleEndian: bool)
    ensures isLittleEndian <==> packing == Some(MsbLast)
  {
    match packing
    case None => false
    case Some(text) => text == MsbLast
  }

  /** Raised when a multiplexed PDU has no SELECTOR-FIELD-BYTE-ORDER (`None.text`). */
  datatype SelectorError = MissingSelectorByteOrder

  /** Import of a multiplexed PDU's selector field, whose byte-order element the reader dereferences unchecked. */
  function SelectorIsLittleEndian(selectorByteOrder: Option<string>): (r: Result<bool, SelectorError>)
    ensures r.Failure? <==> selectorByteOrder.None?
    ensures r == Success(true) <==> selectorByteOrder == Some(MsbLast)
  {
    match selectorByteOrder
    case None => Failure(MissingSelectorByteOrder)
    case Some(text) => Success(text == MsbLast)
  }

  /** Exporting a signal's byte order and importing it back preserves the flag. */
  lemma PackingRoundTrip(isLittleEndian: bool)
    ensures IsLittleEndianFromPacking(Some(PackingByteOrder(isLittleEndian))) == isLittleEndian
  {
  }

  /** The selector reader agrees with the signal reader whenever the element is present. */
  lemma SelectorAgreesWithSignal(text: string)
    ensures SelectorIsLittleEndian(Some(text)) == Success(IsLittleEndianFromPacking(Some(text)))
  {
  }
}

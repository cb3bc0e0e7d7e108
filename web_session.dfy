/**
 * The web session as the filter sees it: a fixed identifier, a mutable map of attributes,
 * and whether it has been invalidated.
 */
module WebSession {
  import CasReceipt

  /** A session attribute value. Only the kinds the filter distinguishes are told apart. */
  datatype Value =
    | Text(text: string)                       // a String
    | ReceiptValue(receipt: CasReceipt.Receipt) // a CASReceipt
    | Other                                    // any other object an application stores

  class Session {
    const id: string
    var attributes: map<string, Value>
    var invalidated: bool

    constructor(id: string, attributes: map<string, Value>)
      ensures this.id == id && this.attributes == attributes && !invalidated
    {
      this.id := id;
      this.attributes := attributes;
      invalidated := false;
    }

    /** `invalidate`: the session is marked invalid; what the underlying store then discards is not modelled. */
    method Invalidate()
      modifies this
      ensures invalidated && attributes == old(attributes)
    {
      invalidated := true;
    }
  }
}

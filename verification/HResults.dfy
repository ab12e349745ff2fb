/** The return codes the modelled functions use. */
module HResults {
  datatype HRESULT =
    | S_OK | S_FALSE
    | E_FAIL | E_INVALIDARG | E_OUTOFMEMORY | E_UNEXPECTED
    | VFW_E_ALREADY_COMMITTED | VFW_E_BUFFERS_OUTSTANDING | VFW_E_BADALIGN
    | VFW_E_SIZENOTSET | VFW_E_INVALID_FILE_FORMAT | VFW_E_SAMPLE_REJECTED
    | VFW_E_PIN_ALREADY_BLOCKED | VFW_E_PIN_ALREADY_BLOCKED_ON_THIS_THREAD
    | Other(code: int)  // what a method outside the model answered; negative means failure
  {
    predicate Failed() {
      match this
      case S_OK | S_FALSE => false
      case Other(code) => code < 0
      case _ => true
    }
  }
}

// The HRESULT values the modelled code distinguishes, as the signed 32-bit numbers they are.

module Results {
  type HResult = int

  const S_OK: HResult := 0
  const E_PENDING: HResult := 0x8000000A - 0x1_0000_0000
  const E_ABORT: HResult := 0x80004004 - 0x1_0000_0000
  const E_POINTER: HResult := 0x80004003 - 0x1_0000_0000
  const E_NOTIMPL: HResult := 0x80004001 - 0x1_0000_0000
  const E_FAIL: HResult := 0x80004005 - 0x1_0000_0000
  const E_INVALIDARG: HResult := 0x80070057 - 0x1_0000_0000
  const E_NOT_SUFFICIENT_BUFFER: HResult := 0x8007007A - 0x1_0000_0000
  const E_ILLEGAL_METHOD_CALL: HResult := 0x8000000E - 0x1_0000_0000
}

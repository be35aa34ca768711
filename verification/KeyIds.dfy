/** The identifiers of signing and encryption keys. */
module KeyIds {

  const MAX_KEY_ID_SIZE := 64

  predicate KeyChar(c: char) {
    'A' <= c <= 'Z' || 'a' <= c <= 'z' || '0' <= c <= '9' || c == '_' || c == '-'
  }

  predicate ValidKeyId(keyId: string) {
    1 <= |keyId| <= MAX_KEY_ID_SIZE && forall i :: 0 <= i < |keyId| ==> KeyChar(keyId[i])
  }
}

/** The constants of popup/js/constants.js. */
module Constants {

  /** How long a status message or the "saved" indicator stays up, in milliseconds. */
  const StatusDisplayTime: nat := 1000

  /** The four storage keys, one per field of the persisted record. */
  const CurrentTextKey: string := "currentText"
  const OriginalInputKey: string := "originalInput"
  const IsDecodedKey: string := "isDecoded"
  const HasResultKey: string := "hasResult"

  const StorageKeys: set<string> := {CurrentTextKey, OriginalInputKey, IsDecodedKey, HasResultKey}
}

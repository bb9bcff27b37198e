/** The part of a Matrix event that the decryption-failure tracker looks at:
    the event's id and the clear (decrypted) content the client holds for it. */
module Events {

  datatype Option<+T> = None | Some(value: T)

  /** The msgtype the client puts in the clear content of an event it could not decrypt. */
  const BadEncryptedMsgtype: string := "m.bad.encrypted"

  /** Clear content of an event; `{}` in the tests is the content with neither field set. */
  datatype ClearContent = ClearContent(msgtype: Option<string>, body: Option<string>)

  datatype MatrixEvent = MatrixEvent(id: string, clear: ClearContent)

  /** The client's placeholder content for an event that failed to decrypt, carrying the reason. */
  function BadEncryptedMessage(reason: string): (c: ClearContent)
    ensures c.body == Some(reason)
    ensures forall id :: IsDecryptionFailure(MatrixEvent(id, c))
  {
    ClearContent(Some(BadEncryptedMsgtype), Some(reason))
  }

  /** Content with no fields, as installed by `_setClearData({})`. */
  const EmptyContent: ClearContent := ClearContent(None, None)

  /** An event counts as a decryption failure exactly when its clear content is the bad-encrypted message. */
  predicate IsDecryptionFailure(ev: MatrixEvent): (r: bool)
    ensures ev.clear.msgtype == Some(BadEncryptedMsgtype) ==> r
    ensures ev.clear == EmptyContent ==> !r
  {
    ev.clear.msgtype == Some(BadEncryptedMsgtype)
  }

  /** Replaces the clear content of an event, keeping its id. */
  function SetClearData(ev: MatrixEvent, content: ClearContent): (ev': MatrixEvent)
    ensures ev'.id == ev.id && ev'.clear == content
  {
    ev.(clear := content)
  }

  /** A fresh event with the given id whose clear content is the bad-encrypted message. */
  function CreateFailedDecryptionEvent(id: string): (ev: MatrixEvent)
    ensures ev.id == id
    ensures IsDecryptionFailure(ev)
  {
    MatrixEvent(id, BadEncryptedMessage(":("))
  }

  /** The classification depends on the msgtype alone: any bad-encrypted message is a failure,
      and content with any other msgtype, or none, is a successful decryption. */
  lemma ClassifiedByMsgtypeOnly(ev: MatrixEvent, reason: string, content: ClearContent)
    ensures IsDecryptionFailure(SetClearData(ev, BadEncryptedMessage(reason)))
    ensures content.msgtype != Some(BadEncryptedMsgtype) ==> !IsDecryptionFailure(SetClearData(ev, content))
    ensures !IsDecryptionFailure(SetClearData(ev, EmptyContent))
  {
  }
}

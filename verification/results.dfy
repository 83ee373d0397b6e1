/**
 The exceptions the decoders raise, and the result type that carries them.
 */
module Results {

  datatype Error =
    /** IndexError: a byte was indexed past the end of a short read. */
    | EndOfData
    /** LengthException: an integer was built from zero bytes. */
    | LengthException
    /** LengthError: a channel message is not three bytes wide. */
    | LengthError
    /** The status byte does not carry the event's indicator nibble. */
    | InvalidStatus
    /** ValueError from `bytearray.fromhex`: an odd number of hex digits, or a sign. */
    | MalformedHex
    /** ValueError from the note-name lookup. */
    | NoteOutOfRange(note: int)
    /** EventLengthError: a meta event declared a length other than its fixed size. */
    | EventLengthError(length: int)
    /** EventTextError: a text meta event holds a byte outside ASCII. */
    | EventTextError
    /** ValueError from `bytearray.append`: a value that is not a byte. */
    | ByteOutOfRange(value: int)
    /** ValueError: a reserved SMPTE bit is set. */
    | ReservedBitsSet
    /** ValueError: a key signature index outside -7..7. */
    | KeySignatureOutOfRange(index: int)
    /** KeyError: no decoder is registered for a meta type. */
    | UnknownMetaType(metaType: int)

  datatype Result<+T> = Ok(value: T) | Err(error: Error)
  {
    predicate IsFailure() {
      Err?
    }

    function PropagateFailure<U>(): Result<U>
      requires Err?
    {
      Err(error)
    }

    function Extract(): T
      requires Ok?
    {
      value
    }
  }

  datatype Option<+T> = None | Some(value: T)
}

/** Values shared by every layer: optional values, the service exceptions as
    error values, and Java's notion of a blank string. */
module Common {

  /** Java's nullable reference: `None` stands for `null`. */
  datatype Option<+T> = None | Some(value: T)

  /** Which validation rule rejected a request (the exception message). */
  datatype Reason =
    | HotelNameBlank
    | CityBlank
    | CategoryBlank
    | HotelIdBlank
    | FacilityNameBlank
    | RoomDataMissing
    | PriceTooLow
    | RoomNumberTaken
    | RoomIdBlank
    | UpdateArgumentsMissing
    | RoomNumberBlank
    | RoomListEmpty
    | RoomNumbersDuplicated
    | RoomDataInvalid

  /** The exceptions a service call can end in. */
  datatype Error =
    | InvalidInput(reason: Reason)   // InvalidInputException
    | NotFound                       // ResourceNotFoundException
    | AlreadyExists                  // AlreadyExistsException
    | NullPointer                    // NullPointerException

  datatype Result<+T> = Ok(value: T) | Err(error: Error)

  /** `Character.isWhitespace`: the Unicode space separators other than the
      no-break spaces, and the ASCII/ISO control characters it lists. */
  predicate IsWhitespace(c: char) {
    || ('\t' <= c <= '\r')
    || ('\U{1C}' <= c <= ' ')
    || c == '\U{1680}'
    || ('\U{2000}' <= c <= '\U{2006}')
    || ('\U{2008}' <= c <= '\U{200A}')
    || c == '\U{2028}' || c == '\U{2029}' || c == '\U{205F}' || c == '\U{3000}'
  }

  /** `String.isBlank`: empty or whitespace only. */
  predicate IsBlank(s: string) {
    forall i :: 0 <= i < |s| ==> IsWhitespace(s[i])
  }

  /** Which strings count as blank: the empty one and whitespace-only ones,
      but not one holding a letter among spaces. */
  lemma BlankExamples()
    ensures IsBlank("") && IsBlank(" \t\n") && !IsBlank(" a ")
    ensures NullOrBlank(None) && NullOrBlank(Some(" ")) && !NullOrBlank(Some("Minsk"))
  {
    assert !IsWhitespace(" a "[1]);
    assert !IsWhitespace("Minsk"[0]);
  }

  /** `s == null || s.isBlank()`. */
  predicate NullOrBlank(s: Option<string>) {
    s.None? || IsBlank(s.value)
  }
}

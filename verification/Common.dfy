/** Small datatypes shared by every component of the model. */
module Common {

  datatype Option<+T> = None | Some(value: T)

  /** A call that returns normally, or one the program ends with a thrown error. */
  datatype Result<+T, +E> = Ok(value: T) | Err(error: E)

  function Max(a: int, b: int): int {
    if a < b then b else a
  }

  function Min(a: int, b: int): int {
    if b < a then b else a
  }

  predicate IsSpace(c: char) {
    || 0x9 <= c as int <= 0xd || c == ' ' || c as int == 0xa0 || c as int == 0x1680 || 0x2000 <= c as int <= 0x200a
    || c as int == 0x2028 || c as int == 0x2029 || c as int == 0x202f || c as int == 0x205f || c as int == 0x3000 || c as int == 0xfeff
  }

  /** Nothing is left of the text when white space is trimmed off. */
  predicate Blank(s: string) {
    forall i :: 0 <= i < |s| ==> IsSpace(s[i])
  }
}

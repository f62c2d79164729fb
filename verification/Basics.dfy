/**
 Small things several components share.
 */
module Basics {
  datatype Option<T> = None | Some(value: T)

  function Max(a: int, b: int): (m: int) { if a < b then b else a }

  function Min(a: int, b: int): (m: int) { if a < b then a else b }

  /** The white space that trimming removes. */
  predicate IsSpace(c: char)
  {
    c == ' ' || '\t' <= c <= '\r' || c == '\U{A0}' || c == '\U{1680}' || '\U{2000}' <= c <= '\U{200A}'
    || c == '\U{2028}' || c == '\U{2029}' || c == '\U{202F}' || c == '\U{205F}' || c == '\U{3000}' || c == '\U{FEFF}'
  }

  /** The code points that ECMAScript's `trim` removes: white space and line terminators. */
  lemma SpaceCodePoints(c: char)
    ensures IsSpace(c) <==>
              (c as int) in {9, 10, 11, 12, 13, 32, 160, 5760, 8192, 8193, 8194, 8195, 8196, 8197, 8198, 8199, 8200,
                             8201, 8202, 8232, 8233, 8239, 8287, 12288, 65279}
  {
  }
}

/** Definitions shared by every component model. */
module Basics {

  datatype Option<+T> = None | Some(value: T)

  function Or<T>(first: Option<T>, second: T): T {
    if first.Some? then first.value else second
  }

  /** Milliseconds since the epoch. Canonical ISO timestamps order as these numbers do. */
  type Time = nat

  function Min(a: int, b: int): int {
    if a <= b then a else b
  }

  function Max(a: int, b: int): int {
    if a <= b then b else a
  }

  /** The white space that String.prototype.trim removes. */
  predicate IsSpace(c: char) {
    c in {'\t', '\n', '\r', ' ', '\U{000B}', '\U{000C}', '\U{00A0}', '\U{1680}', '\U{2028}', '\U{2029}', '\U{202F}',
          '\U{205F}', '\U{3000}', '\U{FEFF}'} || '\U{2000}' <= c <= '\U{200A}'
  }

  predicate IsBlank(s: string) {
    forall i :: 0 <= i < |s| ==> IsSpace(s[i])
  }

  predicate IsDigit(c: char) {
    '0' <= c <= '9'
  }

  /** Lower case, for the ASCII letters that extensions, digests and media types use. */
  function LowerChar(c: char): char {
    if 'A' <= c <= 'Z' then c + 32 as char else c
  }

  function Lower(s: string): string {
    seq(|s|, i requires 0 <= i < |s| => LowerChar(s[i]))
  }
}

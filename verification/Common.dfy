/** Shared wrappers. */
module Common {

  datatype Option<+T> = None | Some(value: T)

  datatype Result<+T, +E> = Ok(value: T) | Err(error: E)

  function Min(a: int, b: int): int { if a <= b then a else b }

  function Max(a: int, b: int): int { if a <= b then b else a }

  /** Subtraction on unsigned integers that stops at zero. */
  function SatSub(a: nat, b: nat): nat { if a <= b then 0 else a - b }

  predicate IsHexDigit(c: char) { '0' <= c <= '9' || 'a' <= c <= 'f' || 'A' <= c <= 'F' }

  /** Hex digits in lower case. */
  function Lower(c: char): char { if 'A' <= c <= 'F' then (c as int + 32) as char else c }

  function LowerAll(s: string): string { seq(|s|, i requires 0 <= i < |s| => Lower(s[i])) }
}

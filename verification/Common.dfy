/** What several modules need: optional values, and lower case as the program uses it on ASCII text. */
module Common {

  datatype Option<T> = None | Some(value: T)

  function LowerChar(c: char): char { if 'A' <= c <= 'Z' then (c as int + 32) as char else c }

  function Lower(s: string): string { seq(|s|, i requires 0 <= i < |s| => LowerChar(s[i])) }
}

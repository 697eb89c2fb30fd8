/** Option and Result, used wherever the Go code returns a nil pointer or an error. */
module Wrappers {

  datatype Option<+T> = None | Some(value: T)

  datatype Result<+T, +E> = Ok(value: T) | Err(error: E)
}

/** Durations and instants are integers counting nanoseconds, as time.Duration does. */
module Durations {

  const SECOND: int := 1_000_000_000

  const MILLISECOND: int := 1_000_000

  const HOUR: int := 3600 * SECOND
}

/** What can happen to one database statement as its caller sees it. */
module Faults {

  /** Normal: the statement runs and its reply arrives.
      LostBefore: an error is reported and nothing was committed.
      LostAfter: the statement committed, but an error is reported all the same. */
  datatype Fate = Normal | LostBefore | LostAfter
}

/** The one function of Go's strings package that several services use. */
module Strings {

  /** White_Space characters of Unicode, which strings.TrimSpace removes. */
  predicate IsSpace(c: char) {
    var n := c as int;
    || 0x9 <= n <= 0xD || n == 0x20 || n == 0x85 || n == 0xA0 || n == 0x1680
    || 0x2000 <= n <= 0x200A || n == 0x2028 || n == 0x2029 || n == 0x202F || n == 0x205F || n == 0x3000
  }

  function TrimSpace(s: string): string {
    if s == "" then ""
    else if IsSpace(s[0]) then TrimSpace(s[1..])
    else if IsSpace(s[|s| - 1]) then TrimSpace(s[..|s| - 1])
    else s
  }

  predicate AllSpace(s: string) {
    forall c <- s :: IsSpace(c)
  }

  /** The string without the white space at its ends: nothing else is removed, and no white
      space is left there. */
  lemma {:induction false} TrimSpaceMeans(s: string) returns (before: string, after: string)
    ensures s == before + TrimSpace(s) + after && AllSpace(before) && AllSpace(after)
    ensures TrimSpace(s) != "" ==> !IsSpace(TrimSpace(s)[0]) && !IsSpace(TrimSpace(s)[|TrimSpace(s)| - 1])
    decreases |s|
  {
    before, after := "", "";
    if s == "" {
    } else if IsSpace(s[0]) {
      var inner;
      inner, after := TrimSpaceMeans(s[1..]);
      before := [s[0]] + inner;
      assert s == [s[0]] + s[1..];
    } else if IsSpace(s[|s| - 1]) {
      var inner;
      before, inner := TrimSpaceMeans(s[..|s| - 1]);
      after := inner + [s[|s| - 1]];
      assert s == s[..|s| - 1] + [s[|s| - 1]];
    }
  }
}

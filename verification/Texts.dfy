/** Text without surrounding white space. */
module Texts {

  predicate IsSpace(c: char) {
    c == ' ' || '\t' <= c <= '\r'
  }

  function Stripped(s: string): string
    decreases |s|
  {
    if s == "" then s
    else if IsSpace(s[0]) then Stripped(s[1..])
    else if IsSpace(s[|s| - 1]) then Stripped(s[..|s| - 1])
    else s
  }

  lemma {:induction false} StrippedIsStripped(s: string)
    ensures Stripped(Stripped(s)) == Stripped(s)
    decreases |s|
  {
    if s != "" {
      if IsSpace(s[0]) {
        StrippedIsStripped(s[1..]);
      } else if IsSpace(s[|s| - 1]) {
        StrippedIsStripped(s[..|s| - 1]);
      }
    }
  }
}

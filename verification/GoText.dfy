/** The parts of Go's strings package the log reader relies on. A string is a byte string: each char stands for one byte. */
module GoText {
  /** strings.TrimRight(s, "\r\n") */
  function TrimRightNewlines(s: string): (t: string)
    ensures |t| <= |s| && t == s[..|t|]
    ensures t != [] ==> t[|t| - 1] != '\n' && t[|t| - 1] != '\r'
    ensures forall i | |t| <= i < |s| :: s[i] == '\n' || s[i] == '\r'
  {
    if s != [] && (s[|s| - 1] == '\n' || s[|s| - 1] == '\r') then TrimRightNewlines(s[..|s| - 1]) else s
  }

  /** The byte length of the white-space rune that starts s, or 0 when s starts with none. */
  function LeadingSpace(s: string): (n: nat)
    ensures n <= |s|
  {
    if |s| >= 1 && (s[0] == ' ' || '\t' <= s[0] <= '\r') then 1
    else if |s| >= 2 && s[0] == '\U{C2}' && (s[1] == '\U{85}' || s[1] == '\U{A0}') then 2
    else if |s| >= 3 && s[0] == '\U{E1}' && s[1] == '\U{9A}' && s[2] == '\U{80}' then 3
    else if |s| >= 3 && s[0] == '\U{E2}' && s[1] == '\U{80}' &&
            ('\U{80}' <= s[2] <= '\U{8A}' || s[2] == '\U{A8}' || s[2] == '\U{A9}' || s[2] == '\U{AF}') then 3
    else if |s| >= 3 && s[0] == '\U{E2}' && s[1] == '\U{81}' && s[2] == '\U{9F}' then 3
    else if |s| >= 3 && s[0] == '\U{E3}' && s[1] == '\U{80}' && s[2] == '\U{80}' then 3
    else 0
  }

  /** strings.TrimSpace(s) == "", which holds exactly when s is a run of white-space runes. */
  predicate Blank(s: string)
  {
    s == [] || (LeadingSpace(s) > 0 && Blank(s[LeadingSpace(s)..]))
  }
}

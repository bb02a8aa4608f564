/** C strings: no embedded terminator, and reading one past the end gives the terminator. */
module CStrings {
  ghost predicate CString(s: string) { forall i :: 0 <= i < |s| ==> s[i] != '\0' }

  function CharAt(s: string, i: nat): char { if i < |s| then s[i] else '\0' }
}

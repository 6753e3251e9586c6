/**
  The `String` extension of the app: capitalising the first letter of a string.

  Foundation's `String.capitalized` is not modelled; every function here takes it as a
  parameter `cap`, so what is proved holds for any case mapping.
 */
module StringExtension {

  /** A case mapping on strings, standing for Foundation's `String.capitalized`. */
  type CaseMap = string -> string

  /** `prefix(1)`: the first character, or nothing for the empty string. */
  function Prefix1(s: string): (p: string)
    ensures |p| == if s == [] then 0 else 1
    ensures p + DropFirst(s) == s
  {
    if s == [] then [] else [s[0]]
  }

  /** `dropFirst()`: everything after the first character. */
  function DropFirst(s: string): (rest: string)
    ensures |rest| == if s == [] then 0 else |s| - 1
  {
    if s == [] then [] else s[1..]
  }

  /** `capitalizingFirstLetter()`: the case-mapped first character followed by the rest, unchanged. */
  function CapitalizingFirstLetter(cap: CaseMap, s: string): (r: string)
    ensures s != [] ==> r == cap([s[0]]) + s[1..]
    ensures s == [] ==> r == cap([])
  {
    cap(Prefix1(s)) + DropFirst(s)
  }

  /** `mutating capitalizeFirstLetter()`: `self` is replaced by its first-letter-capitalised form. */
  method CapitalizeFirstLetter(cap: CaseMap, self: string) returns (updated: string)
    ensures updated == CapitalizingFirstLetter(cap, self)
  {
    updated := cap(Prefix1(self)) + DropFirst(self);
  }

  /** Whatever the case mapping does to the first character, the characters after it are kept. */
  lemma RestUnchanged(cap: CaseMap, s: string)
    requires s != []
    ensures |CapitalizingFirstLetter(cap, s)| >= |s| - 1
    ensures CapitalizingFirstLetter(cap, s)[|cap([s[0]])|..] == s[1..]
  {
  }

  /** The empty string stays empty, given a case mapping that keeps the empty string empty. */
  lemma EmptyStaysEmpty(cap: CaseMap)
    requires cap([]) == []
    ensures CapitalizingFirstLetter(cap, []) == []
  {
  }

  /** A string whose first character is already in the mapped form is a fixed point. */
  lemma CapitalizingIsIdempotent(cap: CaseMap, s: string)
    requires s != [] && |cap([s[0]])| == 1 && cap([cap([s[0]])[0]]) == cap([s[0]])
    ensures CapitalizingFirstLetter(cap, CapitalizingFirstLetter(cap, s)) == CapitalizingFirstLetter(cap, s)
  {
    var t := CapitalizingFirstLetter(cap, s);
    assert t[0] == cap([s[0]])[0];
    assert t[1..] == s[1..];
  }

  /** "something" becomes "Something" under both forms, for a mapping that sends "s" to "S". */
  method SomethingBecomesCapitalised(cap: CaseMap) returns (pure: string, mutated: string)
    requires cap("s") == "S"
    ensures pure == "Something" && mutated == "Something"
  {
    pure := CapitalizingFirstLetter(cap, "something");
    mutated := CapitalizeFirstLetter(cap, "something");
  }
}

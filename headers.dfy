/** HTTP header entries as the extension sees them, and the ASCII case folding
    that `name.toLowerCase()` performs on header names (names are tokens, so
    only ASCII letters occur in them; see section 5.1 of RFC 9110). */
module Headers {

  /** One entry of `details.requestHeaders` / `details.responseHeaders`. */
  datatype Header = Header(name: string, value: string)

  /** `toLowerCase` on one ASCII character: 'A'..'Z' become 'a'..'z'. */
  function LowerChar(c: char): char
  {
    if 'A' <= c <= 'Z' then (c as int + 32) as char else c
  }

  /** `toLowerCase` on a string of ASCII characters. */
  function Lower(s: string): (r: string)
    ensures |r| == |s|
    ensures forall i :: 0 <= i < |s| ==> r[i] == LowerChar(s[i])
    ensures forall i :: 0 <= i < |r| ==> !('A' <= r[i] <= 'Z')
  {
    seq(|s|, i requires 0 <= i < |s| => LowerChar(s[i]))
  }

  /** The test `h.name.toLowerCase() === name`. */
  predicate IsNamed(h: Header, name: string)
  {
    Lower(h.name) == name
  }

  /** Case folding is a projection: folding twice is folding once. */
  lemma LowerIdempotent(s: string)
    ensures Lower(Lower(s)) == Lower(s)
  {
  }

  /** The comparison ignores case: against a name with no upper-case letter
      (such as `cookie`), a header matches exactly when its name has the same
      length and each character is the name's character or, for a letter,
      its upper-case form; so `Cookie`, `COOKIE` and `cOoKiE` all match. */
  lemma IsNamedIff(h: Header, name: string)
    requires forall i :: 0 <= i < |name| ==> !('A' <= name[i] <= 'Z')
    ensures IsNamed(h, name) <==>
            |h.name| == |name| &&
            forall i :: 0 <= i < |name| ==>
              h.name[i] == name[i] || ('a' <= name[i] <= 'z' && h.name[i] as int == name[i] as int - 32)
  {
  }
}

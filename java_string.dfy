/** The two java.lang.String operations that Composition.itemAtPath uses. */
module JavaString {

  /** String.startsWith(prefix): false when the prefix is longer than the
      string, otherwise the prefix's characters are compared with the
      string's leading characters one by one. */
  function StartsWith(s: string, prefix: string): (r: bool)
    ensures r <==> prefix <= s
  {
    if |prefix| == 0 then true
    else if |s| == 0 then false
    else s[0] == prefix[0] && StartsWith(s[1..], prefix[1..])
  }

  /** String.substring(beginIndex), for the indices at which Java does not
      throw: the characters from beginIndex to the end. */
  function Substring(s: string, beginIndex: nat): (r: string)
    requires beginIndex <= |s|
    ensures |r| == |s| - beginIndex
    ensures s[..beginIndex] + r == s
  {
    s[beginIndex..]
  }
}

/** Generic helpers of the gateway: membership of a string in a list and the SHA-512 hex digest. */
module Util {
  import opened Hex

  /** Linear search for an exactly equal element, stopping at the first hit. */
  method IsStringInArray(needle: string, haystack: seq<string>) returns (found: bool)
    ensures found <==> exists i :: 0 <= i < |haystack| && haystack[i] == needle
  {
    var i := 0;
    while i < |haystack|
      invariant 0 <= i <= |haystack|
      invariant forall k :: 0 <= k < i ==> haystack[k] != needle
    {
      if haystack[i] == needle {
        return true;
      }
      i := i + 1;
    }
    return false;
  }

  /** Hex digest of SHA-512 over the UTF-8 bytes of `value`; `sha512` is the hash itself. */
  function Sha512(value: string, sha512: Hash): (r: string)
    ensures |r| == 128 && IsLowerHex(r)
  {
    HexLower(sha512(value))
  }

  /** Two values get the same hex digest exactly when their hashes collide. */
  lemma Sha512SameIffHashesCollide(a: string, b: string, sha512: Hash)
    ensures Sha512(a, sha512) == Sha512(b, sha512) <==> sha512(a) == sha512(b)
  {
    HexLowerInjective(sha512(a), sha512(b));
  }
}

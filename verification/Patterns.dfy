/**
 The patterns that keys, names and codes must match.
 */
module Patterns {
  predicate IsHex(c: char)
  {
    '0' <= c <= '9' || 'a' <= c <= 'f'
  }

  /** The pattern `[a-f0-9]{64}`. */
  predicate IsOpaqueKey(key: string)
  {
    |key| == 64 && forall c | c in key :: IsHex(c)
  }

  /** 64 runes, each a decimal digit or one of the letters a to f, by its code. */
  ghost predicate IsHexDigest(key: string)
  {
    |key| == 64 && forall c | c in key :: 48 <= c as int <= 57 || 97 <= c as int <= 102
  }

  lemma OpaqueIsHexDigest(key: string)
    ensures IsOpaqueKey(key) <==> IsHexDigest(key)
  {
  }

  // ---------- Names ----------

  /** The pattern `[a-z][a-z0-9-]{0,31}`, with `_` allowed too where `underscore` says so. */
  predicate IsName(name: string, underscore: bool)
  {
    && 1 <= |name| <= 32 && 'a' <= name[0] <= 'z'
    && forall c | c in name :: 'a' <= c <= 'z' || '0' <= c <= '9' || c == '-' || (underscore && c == '_')
  }

  /** At most 32 small letters, digits and runes of `more`, a letter first, by their codes. */
  ghost predicate IsSafeName(name: string, more: string)
  {
    && 1 <= |name| <= 32 && 97 <= name[0] as int <= 122
    && forall c | c in name :: 97 <= c as int <= 122 || 48 <= c as int <= 57 || c in more
  }

  lemma NamesAreSafe(name: string)
    ensures IsName(name, false) <==> IsSafeName(name, "-")
    ensures IsName(name, true) <==> IsSafeName(name, "-_")
  {
    forall c: char
      ensures c in "-" <==> c == '-'
      ensures c in "-_" <==> c == '-' || c == '_'
    {
      assert "-_"[0] == '-' && "-_"[1] == '_';
    }
  }
}

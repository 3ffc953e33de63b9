/** `MTLSelectorWithKeyPattern` (MTLReflection.h): the selector name built from
    an optional prefix, a property key and a suffix, such as "setName:" or
    "validateName:error:". Selectors are modelled by their names. */
module Reflection {
  import opened Wrappers

  const NUL: char := '\0'

  /** A `const char *` argument: its characters up to the terminating NUL. */
  function CString(s: string): (r: string)
    ensures NUL !in r
    ensures |r| <= |s| && r == s[..|r|]
    ensures |r| < |s| ==> s[|r|] == NUL
    decreases |s|
  {
    if |s| == 0 || s[0] == NUL then "" else [s[0]] + CString(s[1..])
  }

  /** `toupper` in the C locale: only the ASCII letters a-z change, each to a
      single character. */
  function ToUpper(c: char): (u: char)
    ensures 'a' <= c <= 'z' ==> 'A' <= u <= 'Z' && u as int == c as int - 32
    ensures !('a' <= c <= 'z') ==> u == c
  {
    if 'a' <= c <= 'z' then (c as int - 32) as char else c
  }

  /** The key with its first letter capitalised and every other character kept. */
  function Capitalized(key: string): (r: string)
    ensures |r| == |key|
    ensures |key| > 0 ==> r[0] == ToUpper(key[0]) && r[1..] == key[1..]
  {
    if |key| == 0 then "" else [ToUpper(key[0])] + key[1..]
  }

  /** Capitalising twice is capitalising once. */
  lemma CapitalizedIdempotent(key: string)
    ensures Capitalized(Capitalized(key)) == Capitalized(key)
  {
  }

  /** When the pieces "cannot form a valid selector" is left open by the
      declaration; this model takes it to mean an empty name, which the runtime
      cannot register, or a key with an embedded NUL, which would cut the name
      short as a C string. Other characters are accepted. */
  predicate ValidSelectorName(name: string) {
    |name| > 0 && NUL !in name
  }

  /** The characters of the selector, before the validity check: a prefixed key
      is capitalised, an unprefixed key keeps its natural case. */
  function SelectorName(prefix: Option<string>, key: string, suffix: string): string {
    match prefix
    case Some(p) => CString(p) + Capitalized(key) + CString(suffix)
    case None => key + CString(suffix)
  }

  /** `MTLSelectorWithKeyPattern(const char *prefix, NSString *key, const char *suffix)`:
      NULL (None) when the pieces cannot form a valid selector. */
  function SelectorWithKeyPattern(prefix: Option<string>, key: string, suffix: string): (sel: Option<string>)
    ensures sel.Some? <==> NUL !in key && (|key| > 0 || |CString(suffix)| > 0 || (prefix.Some? && |CString(prefix.value)| > 0))
    ensures sel.Some? && prefix.Some? ==> sel.value == CString(prefix.value) + Capitalized(key) + CString(suffix)
    ensures sel.Some? && prefix.None? ==> sel.value == key + CString(suffix)
  {
    var name := SelectorName(prefix, key, suffix);
    if ValidSelectorName(name) then Some(name) else None
  }

  /** `MTLSelectorWithKeyPattern(const char *prefix, const char *key, const char *suffix)`:
      the key is read as a C string. */
  function SelectorWithCKeyPattern(prefix: Option<string>, key: string, suffix: string): (sel: Option<string>)
    ensures sel == SelectorWithKeyPattern(prefix, CString(key), suffix)
  {
    var name := SelectorName(prefix, CString(key), suffix);
    if ValidSelectorName(name) then Some(name) else None
  }

  /** The two overloads agree on every key that is a well-formed C string. */
  lemma OverloadsAgree(prefix: Option<string>, key: string, suffix: string)
    requires NUL !in key
    ensures SelectorWithCKeyPattern(prefix, key, suffix) == SelectorWithKeyPattern(prefix, key, suffix)
  {
    assert CString(key) == key;
  }

  /** With a prefix, the key sits between prefix and suffix with only its first
      character changed, so the key can be read back from the selector. */
  lemma PrefixedSelectorKeepsKey(prefix: string, key: string, suffix: string)
    requires NUL !in key && |key| > 0
    ensures var sel := SelectorWithKeyPattern(Some(prefix), key, suffix);
            var p := |CString(prefix)|;
            && sel.Some?
            && |sel.value| == p + |key| + |CString(suffix)|
            && sel.value[p] == ToUpper(key[0])
            && sel.value[p + 1..p + |key|] == key[1..]
  {
    var sel := SelectorWithKeyPattern(Some(prefix), key, suffix);
    var p := |CString(prefix)|;
    assert sel.value == CString(prefix) + Capitalized(key) + CString(suffix);
    assert sel.value[p..p + |key|] == Capitalized(key);
  }
}

/** Case-insensitive string comparison as `String.equalsIgnoreCase` performs it,
    restricted to the ASCII letters. */
module JavaString {

  /** `Character.toUpperCase` on the ASCII range; every other character is kept. */
  function ToUpper(c: char): (u: char)
    ensures 'a' <= c <= 'z' ==> u as int == c as int - 32
    ensures !('a' <= c <= 'z') ==> u == c
  {
    if 'a' <= c <= 'z' then (c as int - 32) as char else c
  }

  /** `Character.toLowerCase` on the ASCII range; every other character is kept. */
  function ToLower(c: char): (l: char)
    ensures 'A' <= c <= 'Z' ==> l as int == c as int + 32
    ensures !('A' <= c <= 'Z') ==> l == c
  {
    if 'A' <= c <= 'Z' then (c as int + 32) as char else c
  }

  /** The per-character test of `String.regionMatches(true, ...)`: equal, equal
      after upper-casing, or equal after upper- then lower-casing. */
  predicate CharEqualsIgnoreCase(a: char, b: char)
  {
    a == b || ToUpper(a) == ToUpper(b) || ToLower(ToUpper(a)) == ToLower(ToUpper(b))
  }

  /** `s.equalsIgnoreCase(t)` for a non-null `t`: same length and every pair of
      characters at the same position equal ignoring case. */
  predicate EqualsIgnoreCase(s: string, t: string)
  {
    |s| == |t| && forall i :: 0 <= i < |s| ==> CharEqualsIgnoreCase(s[i], t[i])
  }

  /** On ASCII the three-way character test is equality after upper-casing. */
  lemma CharEqualsIgnoreCaseIsUpperEquality(a: char, b: char)
    ensures CharEqualsIgnoreCase(a, b) <==> ToUpper(a) == ToUpper(b)
  {
  }

  /** Case-insensitive equality is symmetric and transitive. */
  lemma EqualsIgnoreCaseSymmetric(s: string, t: string)
    ensures EqualsIgnoreCase(s, t) <==> EqualsIgnoreCase(t, s)
  {
    if EqualsIgnoreCase(s, t) {
      forall i | 0 <= i < |t| ensures CharEqualsIgnoreCase(t[i], s[i]) {
        CharEqualsIgnoreCaseIsUpperEquality(s[i], t[i]);
        CharEqualsIgnoreCaseIsUpperEquality(t[i], s[i]);
      }
    }
    if EqualsIgnoreCase(t, s) {
      forall i | 0 <= i < |s| ensures CharEqualsIgnoreCase(s[i], t[i]) {
        CharEqualsIgnoreCaseIsUpperEquality(s[i], t[i]);
        CharEqualsIgnoreCaseIsUpperEquality(t[i], s[i]);
      }
    }
  }

  lemma EqualsIgnoreCaseTransitive(s: string, t: string, u: string)
    requires EqualsIgnoreCase(s, t) && EqualsIgnoreCase(t, u)
    ensures EqualsIgnoreCase(s, u)
  {
    forall i | 0 <= i < |s| ensures CharEqualsIgnoreCase(s[i], u[i]) {
      CharEqualsIgnoreCaseIsUpperEquality(s[i], t[i]);
      CharEqualsIgnoreCaseIsUpperEquality(t[i], u[i]);
      CharEqualsIgnoreCaseIsUpperEquality(s[i], u[i]);
    }
  }

  /** Two names equal ignoring case are matched by exactly the same strings. */
  lemma EqualsIgnoreCaseSubstitute(a: string, b: string, name: string)
    requires EqualsIgnoreCase(a, b)
    ensures EqualsIgnoreCase(a, name) <==> EqualsIgnoreCase(b, name)
  {
    EqualsIgnoreCaseSymmetric(a, b);
    if EqualsIgnoreCase(a, name) {
      EqualsIgnoreCaseTransitive(b, a, name);
    }
    if EqualsIgnoreCase(b, name) {
      EqualsIgnoreCaseTransitive(a, b, name);
    }
  }
}

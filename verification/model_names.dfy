/**
 * Character-level helpers behind the name handling of the Ollama model
 * discovery: Kotlin's `isBlank`, `replace(":", "-")` and `lowercase()`,
 * and the canonical bean-name suffix they compose into.
 */
module ModelNames {

  /**
   * Kotlin's `Char.isWhitespace()` on the JVM, which is
   * `Character.isWhitespace(c) || Character.isSpaceChar(c)`: the Unicode
   * space, line and paragraph separators, the ASCII controls TAB..CR and
   * the four information separators U+001C..U+001F.
   */
  predicate IsWhitespace(c: char)
  {
    || c == ' '
    || ('\t' <= c <= '\r')
    || ('\U{001C}' <= c <= '\U{001F}')
    || c == '\U{00A0}'
    || c == '\U{1680}'
    || ('\U{2000}' <= c <= '\U{200A}')
    || c == '\U{2028}'
    || c == '\U{2029}'
    || c == '\U{202F}'
    || c == '\U{205F}'
    || c == '\U{3000}'
  }

  /** Kotlin's `CharSequence.isBlank()`: empty, or whitespace only. */
  predicate IsBlank(s: string)
  {
    forall i :: 0 <= i < |s| ==> IsWhitespace(s[i])
  }

  /**
   * What the whitespace test separates: ASCII blanks and the ideographic
   * space count, the separator characters of names and every letter do
   * not, and neither do NEL, the zero-width space or the byte-order mark,
   * which Java classes as neither whitespace nor a space character.
   */
  lemma WhitespaceClasses(c: char)
    ensures IsWhitespace(c) ==> c != ':' && c != '-' && !IsUpper(c) && !('a' <= c <= 'z')
    ensures c == ' ' || c == '\t' || c == '\n' || c == '\r' || c == '\U{3000}' ==> IsWhitespace(c)
    ensures c == '\U{0085}' || c == '\U{200B}' || c == '\U{FEFF}' ==> !IsWhitespace(c)
  {
  }

  /** The empty string is blank, and a string is blank exactly when every character in it is whitespace. */
  lemma BlankMeansAllWhitespace(s: string)
    ensures IsBlank([])
    ensures IsBlank(s) <==> (forall c | c in s :: IsWhitespace(c))
  {
  }

  predicate IsUpper(c: char)
  {
    'A' <= c <= 'Z'
  }

  /** Lower-casing of one character, over ASCII. */
  function LowerChar(c: char): (r: char)
    ensures !IsUpper(r)
    ensures IsUpper(c) ==> r as int == c as int + 32
    ensures !IsUpper(c) ==> r == c
  {
    if IsUpper(c) then (c as int + 32) as char else c
  }

  /** `String.lowercase()`, restricted to ASCII letters. */
  function LowerCase(s: string): (r: string)
    ensures |r| == |s|
    ensures forall i :: 0 <= i < |s| ==> r[i] == LowerChar(s[i])
  {
    if s == [] then [] else [LowerChar(s[0])] + LowerCase(s[1..])
  }

  /** The character `replace(":", "-")` puts in place of `c`. */
  function DashFor(c: char): char
  {
    if c == ':' then '-' else c
  }

  /** `String.replace(":", "-")`: every colon becomes a dash. */
  function ReplaceColons(s: string): (r: string)
    ensures |r| == |s|
    ensures forall i :: 0 <= i < |s| ==> r[i] == DashFor(s[i])
  {
    if s == [] then [] else [DashFor(s[0])] + ReplaceColons(s[1..])
  }

  /**
   * The canonical name of a raw model name, `name.replace(":", "-").lowercase()`:
   * as long as the raw name, with every colon turned into a dash and every
   * ASCII capital into its small letter, and nothing else changed.
   */
  function Canonical(raw: string): (r: string)
    ensures |r| == |raw|
    ensures forall i :: 0 <= i < |r| ==> r[i] != ':' && !IsUpper(r[i])
    ensures forall i :: 0 <= i < |raw| ==> r[i] == LowerChar(DashFor(raw[i]))
  {
    LowerCase(ReplaceColons(raw))
  }

  /** A name without colons and capitals is its own canonical name. */
  lemma {:induction false} CanonicalFixesCanonical(s: string)
    requires forall i :: 0 <= i < |s| ==> s[i] != ':' && !IsUpper(s[i])
    ensures Canonical(s) == s
  {
    var r := Canonical(s);
    forall i | 0 <= i < |s|
      ensures r[i] == s[i]
    {
      assert r[i] == LowerChar(DashFor(s[i]));
    }
  }

  /** Applying the canonicalisation a second time changes nothing. */
  lemma {:induction false} CanonicalIdempotent(raw: string)
    ensures Canonical(Canonical(raw)) == Canonical(raw)
  {
    CanonicalFixesCanonical(Canonical(raw));
  }

  /**
   * The order of the two rewritings does not matter: lowering first and
   * replacing colons afterwards gives the same name.
   */
  lemma {:induction false} ReplaceAndLowerCommute(s: string)
    ensures ReplaceColons(LowerCase(s)) == LowerCase(ReplaceColons(s))
  {
    if s != [] {
      ReplaceAndLowerCommute(s[1..]);
      assert LowerCase(s) == [LowerChar(s[0])] + LowerCase(s[1..]);
      assert ReplaceColons(s) == [DashFor(s[0])] + ReplaceColons(s[1..]);
    }
  }

  /**
   * Canonicalisation keeps blankness: the canonical name of a raw name is
   * blank exactly when the raw name is, so a kept (non-blank) entry always
   * yields a non-empty, non-blank canonical name.
   */
  lemma {:induction false} CanonicalBlankIff(raw: string)
    ensures IsBlank(Canonical(raw)) <==> IsBlank(raw)
    ensures !IsBlank(raw) ==> |Canonical(raw)| > 0
  {
    var r := Canonical(raw);
    forall i | 0 <= i < |raw|
      ensures IsWhitespace(r[i]) <==> IsWhitespace(raw[i])
    {
      assert r[i] == LowerChar(DashFor(raw[i]));
    }
    if !IsBlank(raw) {
      var i :| 0 <= i < |raw| && !IsWhitespace(raw[i]);
      assert !IsWhitespace(r[i]);
    }
  }
}

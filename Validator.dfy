/** `Validator.isNull` of the Liferay kernel, the null test the plugin applies
    to every header value, session value and configured header name. */
module Validator {
  import opened JavaLang

  /** The text with its spaces taken out. */
  function WithoutSpaces(s: string): (t: string)
    ensures forall c :: c in t <==> c in s && c != ' '
  {
    ReplaceAllChars(s, ' ', "");
    ReplaceAll(s, ' ', "")
  }

  /** A non-null string counts as null when, spaces aside, it is empty or the
      word `null`. */
  predicate IsNullText(s: string)
  {
    var t := WithoutSpaces(s);
    t == "" || t == "null"
  }

  /** `Validator.isNull(String)`. */
  predicate IsNull(s: Option<string>)
  {
    s.None? || IsNullText(s.value)
  }

  /** A string holding a character other than a space and the letters of `null`
      is never null. */
  lemma NotNullWith(s: string, c: char)
    requires c in s && c !in " nul"
    ensures !IsNullText(s)
  {
    assert c in WithoutSpaces(s);
  }
}

/**
 * The decision inside the Alt+V shortcut handler (src-tauri/src/main.rs):
 * clipboard text that matches the URL pattern is opened, with "http://"
 * put in front unless it already carries an http or https scheme.
 */
module ClipboardUrl {
  import opened StringOps

  const HTTP_SCHEME := "http://"
  const HTTPS_SCHEME := "https://"

  /** The scheme test of the handler: a case-sensitive prefix test. */
  predicate HasScheme(s: string) {
    StartsWith(s, HTTP_SCHEME) || StartsWith(s, HTTPS_SCHEME)
  }

  /** The URL handed to the shell for clipboard text that looks like a URL. */
  function Normalize(text: string): (url: string)
    ensures HasScheme(url)
    ensures HasScheme(text) ==> url == text
    ensures !HasScheme(text) ==> url == HTTP_SCHEME + text
  {
    if HasScheme(text) then text
    else
      StartsWithConcat(HTTP_SCHEME, text);
      HTTP_SCHEME + text
  }

  /** Normalising a normalised URL changes nothing. */
  lemma NormalizeIdempotent(text: string)
    ensures Normalize(Normalize(text)) == Normalize(text)
  {
  }

  /** The texts normalisation leaves alone are exactly those with a scheme. */
  lemma NormalizeFixedPoints(text: string)
    ensures Normalize(text) == text <==> HasScheme(text)
  {
  }

  /** Text without a scheme is never dropped: it is the suffix after "http://". */
  lemma NormalizeKeepsText(text: string)
    ensures |Normalize(text)| >= |text|
    ensures Normalize(text)[|Normalize(text)| - |text|..] == text
  {
  }

  /** Text whose first character is not 'h' has no scheme. */
  lemma NoSchemeWithoutLeadingH(text: string)
    requires text != [] && text[0] != 'h'
    ensures !HasScheme(text)
  {
    assert HTTP_SCHEME[0] == 'h' && HTTPS_SCHEME[0] == 'h';
    if |text| >= |HTTP_SCHEME| {
      assert text[..|HTTP_SCHEME|][0] != HTTP_SCHEME[0];
    }
    if |text| >= |HTTPS_SCHEME| {
      assert text[..|HTTPS_SCHEME|][0] != HTTPS_SCHEME[0];
    }
  }

  lemma NormalizeBareDomain()
    ensures Normalize("example.com/path?x=1") == "http://example.com/path?x=1"
  {
    NoSchemeWithoutLeadingH("example.com/path?x=1");
    assert HTTP_SCHEME + "example.com/path?x=1" == "http://example.com/path?x=1";
  }

  /** The scheme test is case-sensitive, so an upper-case scheme gets a second one. */
  lemma NormalizeUpperCaseScheme()
    ensures Normalize("HTTPS://example.com") == "http://HTTPS://example.com"
  {
    NoSchemeWithoutLeadingH("HTTPS://example.com");
    assert HTTP_SCHEME + "HTTPS://example.com" == "http://HTTPS://example.com";
  }
}

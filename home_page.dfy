/**
 * `getCurrentLanguage` of the dental clinic's home page object
 * (tests/pageObjects/passion-dental/home.page.ts): the language is read off
 * the page URL by substring tests. The URL is a parameter; the browser that
 * supplies it is not modelled.
 */
module HomePage {
  import opened Strings

  /** The three answers. */
  const Vietnamese: string := "vi"
  const English: string := "en"
  const Unknown: string := "unknown"

  /** `/vi` anywhere wins, then `/en` anywhere, and otherwise the language is unknown. */
  function GetCurrentLanguage(url: string): (lang: string)
    ensures lang == Vietnamese || lang == English || lang == Unknown
  {
    if Contains(url, "/vi") then Vietnamese
    else if Contains(url, "/en") then English
    else Unknown
  }

  /** The three answers are distinct, so each one names a single case. */
  lemma AnswersDistinct()
    ensures Vietnamese != English && English != Unknown && Vietnamese != Unknown
  {
    assert Vietnamese[0] == 'v' && English[0] == 'e' && Unknown[0] == 'u';
  }

  /** `vi` exactly when the URL contains `/vi`, even when it contains `/en` too. */
  lemma VietnameseIff(url: string)
    ensures GetCurrentLanguage(url) == Vietnamese <==> Contains(url, "/vi")
  {
    AnswersDistinct();
  }

  /** `en` exactly when the URL contains `/en` but not `/vi`. */
  lemma EnglishIff(url: string)
    ensures GetCurrentLanguage(url) == English <==> Contains(url, "/en") && !Contains(url, "/vi")
  {
    AnswersDistinct();
  }

  /** `unknown` exactly when the URL contains neither. */
  lemma UnknownIff(url: string)
    ensures GetCurrentLanguage(url) == Unknown <==> !Contains(url, "/en") && !Contains(url, "/vi")
  {
    AnswersDistinct();
  }

  /** A path segment that merely starts with `vi` counts: `/video` reads as Vietnamese. */
  lemma SubstringNotSegment(before: string, after: string)
    ensures GetCurrentLanguage(before + "/video" + after) == Vietnamese
  {
    var url := before + "/video" + after;
    assert url[|before|..|before| + 3] == "/vi";
    ContainsAt(url, "/vi", |before|);
  }

  /** Likewise `/entry`, with no `/vi` anywhere, reads as English. */
  lemma EntryReadsEnglish(url: string, i: nat)
    requires i + 6 <= |url| && url[i..i + 6] == "/entry" && !Contains(url, "/vi")
    ensures GetCurrentLanguage(url) == English
  {
    assert url[i..i + 3] == url[i..i + 6][..3];
    ContainsAt(url, "/en", i);
  }
}

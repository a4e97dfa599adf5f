/** The documented behaviour of the Google Photos URL normaliser on
    concrete URLs, each with its exact expected output. */
module GooglePhotosUrlExamples {
  import opened GooglePhotosUrl

  /** With two `=`, normalising the base URL again strips once more: the
      base-URL step is not idempotent in general. */
  lemma RenormaliseTwoEquals()
    ensures var b := ExtractGooglePhotosBaseUrl("https://lh3.googleusercontent.com/pw/ABC=DEF=w100").baseUrl;
      b == "https://lh3.googleusercontent.com/pw/ABC=DEF"
      && ExtractGooglePhotosBaseUrl(b).baseUrl == "https://lh3.googleusercontent.com/pw/ABC"
  {
    LastEqualsWinsInPath();
    StripsRemainingModifier();
  }

  /** The base URL of the two-`=` case, normalised again. */
  lemma StripsRemainingModifier()
    ensures ExtractGooglePhotosBaseUrl("https://lh3.googleusercontent.com/pw/ABC=DEF").baseUrl == "https://lh3.googleusercontent.com/pw/ABC"
  {
    var base := "https://lh3.googleusercontent.com/pw/ABC";
    assert base + "=" + "DEF" == "https://lh3.googleusercontent.com/pw/ABC=DEF";
    BaseUrlOfSplit(base, "DEF");
  }

  lemma StripsWidthHeightModifier()
    ensures ExtractGooglePhotosBaseUrl("https://lh3.googleusercontent.com/pw/ABC123=w1920-h1080")
      == UrlResolution("https://lh3.googleusercontent.com/pw/ABC123",
                       "https://lh3.googleusercontent.com/pw/ABC123=s0")
  {
    var base := "https://lh3.googleusercontent.com/pw/ABC123";
    assert base + "=s0" == "https://lh3.googleusercontent.com/pw/ABC123=s0";
    assert base + "=" + "w1920-h1080" == "https://lh3.googleusercontent.com/pw/ABC123=w1920-h1080";
    BaseUrlOfSplit(base, "w1920-h1080");
  }

  lemma StripsWidthModifier()
    ensures ExtractGooglePhotosBaseUrl("https://lh3.googleusercontent.com/pw/XYZ789=w800")
      == UrlResolution("https://lh3.googleusercontent.com/pw/XYZ789",
                       "https://lh3.googleusercontent.com/pw/XYZ789=s0")
  {
    var base := "https://lh3.googleusercontent.com/pw/XYZ789";
    assert base + "=s0" == "https://lh3.googleusercontent.com/pw/XYZ789=s0";
    assert base + "=" + "w800" == "https://lh3.googleusercontent.com/pw/XYZ789=w800";
    BaseUrlOfSplit(base, "w800");
  }

  lemma StripsSquareModifier()
    ensures ExtractGooglePhotosBaseUrl("https://lh3.googleusercontent.com/pw/DEF456=s200")
      == UrlResolution("https://lh3.googleusercontent.com/pw/DEF456",
                       "https://lh3.googleusercontent.com/pw/DEF456=s0")
  {
    var base := "https://lh3.googleusercontent.com/pw/DEF456";
    assert base + "=s0" == "https://lh3.googleusercontent.com/pw/DEF456=s0";
    assert base + "=" + "s200" == "https://lh3.googleusercontent.com/pw/DEF456=s200";
    BaseUrlOfSplit(base, "s200");
  }

  lemma StripsNoCropModifier()
    ensures ExtractGooglePhotosBaseUrl("https://lh3.googleusercontent.com/pw/LONG123=w1920-h1080-no").baseUrl
      == "https://lh3.googleusercontent.com/pw/LONG123"
  {
    var base := "https://lh3.googleusercontent.com/pw/LONG123";
    assert base + "=" + "w1920-h1080-no" == "https://lh3.googleusercontent.com/pw/LONG123=w1920-h1080-no";
    BaseUrlOfSplit(base, "w1920-h1080-no");
  }

  lemma KeepsUrlWithoutModifier()
    ensures ExtractGooglePhotosBaseUrl("https://lh3.googleusercontent.com/pw/NOMOD123")
      == UrlResolution("https://lh3.googleusercontent.com/pw/NOMOD123",
                       "https://lh3.googleusercontent.com/pw/NOMOD123=s0")
  {
    var url := "https://lh3.googleusercontent.com/pw/NOMOD123";
    assert url == "https://lh3.googleusercontent.com/" + "pw/NOMOD123";
    assert '=' !in "https://lh3.googleusercontent.com/";
    assert '=' !in "pw/NOMOD123";
    assert url + "=s0" == "https://lh3.googleusercontent.com/pw/NOMOD123=s0";
  }

  /** An `=` inside the identifier: the last one wins. */
  lemma LastEqualsWinsInPath()
    ensures ExtractGooglePhotosBaseUrl("https://lh3.googleusercontent.com/pw/ABC=DEF=w100").baseUrl
      == "https://lh3.googleusercontent.com/pw/ABC=DEF"
  {
    var base := "https://lh3.googleusercontent.com/pw/ABC=DEF";
    assert base + "=" + "w100" == "https://lh3.googleusercontent.com/pw/ABC=DEF=w100";
    BaseUrlOfSplit(base, "w100");
  }

  /** An `=` in a query string after the modifier: the split falls inside
      the query, as documented. */
  lemma QueryStringQuirk()
    ensures ExtractGooglePhotosBaseUrl("https://lh3.googleusercontent.com/pw/ABC=w100?query=1").baseUrl
      == "https://lh3.googleusercontent.com/pw/ABC=w100?query"
  {
    var base := "https://lh3.googleusercontent.com/pw/ABC=w100?query";
    assert base + "=" + "1" == "https://lh3.googleusercontent.com/pw/ABC=w100?query=1";
    BaseUrlOfSplit(base, "1");
  }

  /** A 200-character identifier splits the same way as a short one. */
  lemma LongIdentifier(id: string)
    requires |id| == 200 && forall i :: 0 <= i < |id| ==> id[i] == 'A'
    ensures ExtractGooglePhotosBaseUrl("https://lh3.googleusercontent.com/pw/" + id + "=w1920").baseUrl
      == "https://lh3.googleusercontent.com/pw/" + id
  {
    var base := "https://lh3.googleusercontent.com/pw/" + id;
    assert "https://lh3.googleusercontent.com/pw/" + id + "=w1920" == base + "=" + "w1920";
    BaseUrlOfSplit(base, "w1920");
  }
}

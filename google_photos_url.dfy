/** The Google Photos CDN URL normaliser, `extractGooglePhotosBaseUrl`.
    The size modifier of such a URL is taken to be everything from the LAST
    `=` on; the base URL is what precedes it, and the full-resolution URL is
    the base URL with the marker `=s0` appended. The split looks at the whole
    string, so an `=` in the path or in a query string moves the split point
    too; that behaviour is kept on purpose. */
module GooglePhotosUrl {
  import opened Text

  /** The pair of strings the normaliser returns. */
  datatype UrlResolution = UrlResolution(baseUrl: string, fullResUrl: string)

  /** The suffix that asks the CDN for the image at its original size. */
  const FULL_RES_MARKER: string := "=s0"

  function ExtractGooglePhotosBaseUrl(url: string): (r: UrlResolution)
    // The full-resolution URL is the base URL plus the marker, whatever the input.
    ensures r.fullResUrl == r.baseUrl + FULL_RES_MARKER
    ensures EndsWith(r.fullResUrl, FULL_RES_MARKER)
    // The base URL is always a prefix of the input.
    ensures StartsWith(url, r.baseUrl)
    // No `=`: the base URL is the input unchanged.
    ensures '=' !in url ==> r.baseUrl == url
    // Some `=`: the input is the base URL, one `=`, and a tail free of `=`.
    ensures '=' in url ==>
      |r.baseUrl| < |url| && url[|r.baseUrl|] == '=' && '=' !in url[|r.baseUrl| + 1..]
  {
    var i := LastIndexOf(url, '=');
    var baseUrl := if i == -1 then url else url[..i];
    UrlResolution(baseUrl, baseUrl + FULL_RES_MARKER)
  }

  /** The split is determined by its shape alone: whenever the input is some
      `base`, an `=`, and a modifier without `=`, the base URL is `base`.
      This holds for any length of `base`, however long its identifier. */
  lemma BaseUrlOfSplit(base: string, modifier: string)
    requires '=' !in modifier
    ensures ExtractGooglePhotosBaseUrl(base + "=" + modifier).baseUrl == base
    ensures ExtractGooglePhotosBaseUrl(base + "=" + modifier).fullResUrl == base + "=s0"
  {
    var url := base + "=" + modifier;
    assert url[|base|] == '=';
    assert url[|base| + 1..] == modifier;
  }

  /** Conversely, every input with an `=` has exactly that shape, with the
      base URL as `base`. */
  lemma SplitOfBaseUrl(url: string)
    requires '=' in url
    ensures var b := ExtractGooglePhotosBaseUrl(url).baseUrl;
      '=' !in url[|b| + 1..] && url == b + "=" + url[|b| + 1..]
  {
    var b := ExtractGooglePhotosBaseUrl(url).baseUrl;
    assert url == url[..|b|] + [url[|b|]] + url[|b| + 1..];
  }

  /** With a single `=` in the input, the base URL holds no `=`, so
      normalising the base URL again leaves it unchanged. */
  lemma RenormaliseSingleModifier(base: string, modifier: string)
    requires '=' !in base && '=' !in modifier
    ensures var b := ExtractGooglePhotosBaseUrl(base + "=" + modifier).baseUrl;
      '=' !in b && ExtractGooglePhotosBaseUrl(b).baseUrl == b
  {
    BaseUrlOfSplit(base, modifier);
  }
}

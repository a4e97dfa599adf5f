/** The documented behaviour of the classifier on concrete links. Each link
    is written as its scheme, host, path, query and fragment, joined by
    `Link`; the doc comment above each lemma shows the link as one string. */
module PlatformDetectionExamples {
  import opened Text
  import opened PlatformDetection

  /** `scheme://host` followed by the path, `?query` unless the query is
      empty, and `#fragment` unless the fragment is empty. */
  function Link(scheme: string, host: string, path: string, query: string, fragment: string): string {
    scheme + "://" + host + path + QuerySuffix(query) + FragmentSuffix(fragment)
  }

  /** `s` lower-cases to `t`, stated character by character. */
  predicate Lowers(s: string, t: string) {
    |s| == |t| && forall j :: 0 <= j < |s| ==> LowerChar(s[j]) == t[j]
  }

  /** No character of `h` ends or splits an authority. */
  predicate HostChars(h: string) {
    forall j :: 0 <= j < |h| ==> h[j] != '/' && h[j] != '?' && h[j] != '#' && h[j] != '@' && h[j] != ':'
  }

  /** No character of `p` starts a query or a fragment. */
  predicate PathChars(p: string) {
    forall j :: 0 <= j < |p| ==> p[j] != '?' && p[j] != '#'
  }

  predicate QueryChars(q: string) {
    forall j :: 0 <= j < |q| ==> q[j] != '#'
  }

  lemma LowersToLower(s: string, t: string)
    requires Lowers(s, t)
    ensures ToLower(s) == t
  {
    assert forall j :: 0 <= j < |t| ==> ToLower(s)[j] == t[j];
  }

  /** A host that ends with a dot and then `d`, checked character by
      character, matches the domain `d`. */
  lemma DotSuffixMatches(h: string, d: string)
    requires |d| < |h| && h[|h| - |d| - 1] == '.'
    requires forall j :: 0 <= j < |d| ==> h[|h| - |d| + j] == d[j]
    ensures MatchesDomain(h, d)
  {
    assert h[|h| - |d| - 1..] == "." + d;
  }

  /** A link whose parts lower-case to those of a well-formed URL of
      platform `t` is classified as `t`. */
  lemma Detects(scheme: string, host: string, path: string, query: string, fragment: string,
                u: Url, t: Platform)
    requires Lowers(scheme, u.scheme) && Lowers(host, u.host)
    requires Lowers(path, u.path) && Lowers(query, u.query)
    requires u.scheme == "https" || u.scheme == "http"
    requires HostChars(u.host) && (u.path == [] || u.path[0] == '/') && PathChars(u.path)
    requires QueryChars(u.query)
    requires Recognises(u, t)
    ensures DetectPlatform(Link(scheme, host, path, query, fragment)) == t
  {
    LowersToLower(scheme, u.scheme);
    LowersToLower(host, u.host);
    LowersToLower(path, u.path);
    LowersToLower(query, u.query);
    assert WellFormed(u);
    ToLowerWritten(scheme, host, path, query, fragment);
    DetectWritten(Link(scheme, host, path, query, fragment), u, ToLower(fragment), t);
  }

  /** Characters of a lower-case host name: letters, digits, `.` and `-`. */
  predicate HostText(h: string) {
    forall j :: 0 <= j < |h| ==> ('a' <= h[j] <= 'z' || '0' <= h[j] <= '9' || h[j] == '.' || h[j] == '-')
  }

  /** Characters of a lower-case path or query in these links. */
  predicate PathText(p: string) {
    forall j :: 0 <= j < |p| ==>
      ('a' <= p[j] <= 'z' || '0' <= p[j] <= '9' || p[j] == '.' || p[j] == '-' || p[j] == '_'
       || p[j] == '/' || p[j] == '=' || p[j] == '&')
  }

  /** A link already in lower case, with plain host, path and query, is
      classified by the description its URL meets. */
  lemma DetectsLower(scheme: string, host: string, path: string, query: string, fragment: string, t: Platform)
    requires scheme == "https" || scheme == "http"
    requires HostText(host) && (path == [] || path[0] == '/') && PathText(path) && PathText(query)
    requires Recognises(Url(scheme, host, path, query), t)
    ensures DetectPlatform(Link(scheme, host, path, query, fragment)) == t
  {
    Detects(scheme, host, path, query, fragment, Url(scheme, host, path, query), t);
  }

  /** Characters of a lower-case authority: those of a host name, and the
      `@` of userinfo and the `:` of a port. */
  predicate AuthorityText(a: string) {
    forall j :: 0 <= j < |a| ==> ('a' <= a[j] <= 'z' || '0' <= a[j] <= '9' || a[j] == '.' || a[j] == '-'
                                  || a[j] == '@' || a[j] == ':')
  }

  lemma AuthorityTextPlain(a: string)
    requires AuthorityText(a)
    ensures ToLower(a) == a && '/' !in a && '?' !in a && '#' !in a
  {
    LowersToLower(a, a);
  }

  lemma PathTextPlain(p: string)
    requires PathText(p)
    ensures ToLower(p) == p && '?' !in p && '#' !in p
  {
    LowersToLower(p, p);
  }

  lemma HostTextPlain(h: string)
    requires HostText(h)
    ensures '@' !in h && ':' !in h
  {
  }

  /** Lower-casing a link whose scheme, authority, path and query are
      already in lower case lowers only its fragment. */
  lemma LowerLink(scheme: string, authority: string, path: string, query: string, fragment: string)
    requires scheme == "https" || scheme == "http"
    requires AuthorityText(authority) && PathText(path) && PathText(query)
    ensures ToLower(Link(scheme, authority, path, query, fragment))
      == Link(scheme, authority, path, query, ToLower(fragment))
  {
    LowersToLower(scheme, scheme);
    AuthorityTextPlain(authority);
    PathTextPlain(path);
    PathTextPlain(query);
    ToLowerWritten(scheme, authority, path, query, fragment);
  }

  /** A link already in lower case, whose authority may carry userinfo and
      a port, is classified by the description that the URL with the
      authority's host meets. */
  lemma DetectsLowerAuthority(scheme: string, authority: string, path: string, query: string,
                              fragment: string, t: Platform)
    requires scheme == "https" || scheme == "http"
    requires AuthorityText(authority) && (path == [] || path[0] == '/') && PathText(path) && PathText(query)
    requires Recognises(Url(scheme, HostOf(authority), path, query), t)
    ensures DetectPlatform(Link(scheme, authority, path, query, fragment)) == t
  {
    LowerLink(scheme, authority, path, query, fragment);
    AuthorityTextPlain(authority);
    PathTextPlain(path);
    PathTextPlain(query);
    DetectAuthority(Link(scheme, authority, path, query, fragment), scheme, authority, path, query,
                    ToLower(fragment), t);
  }

  /** A path that differs from `p` at position `i` does not start with `p`. */
  lemma PrefixMismatch(s: string, p: string, i: nat)
    requires i < |p| && i < |s| && s[i] != p[i]
    ensures !StartsWith(s, p)
  {
    if |p| <= |s| {
      assert s[..|p|][i] == s[i];
    }
  }

  // iCloud

  lemma DetectsShareICloudParts()
    ensures HostText("share.icloud.com") && PathText("/photos/abc123")
  {
  }

  /** https://share.icloud.com/photos/abc123 */
  lemma DetectsShareICloud()
    ensures DetectPlatform(Link("https", "share.icloud.com", "/photos/abc123", "", "")) == ICloud
  {
    DetectsShareICloudParts();
    DotSuffixMatches("share.icloud.com", "icloud.com");
    DetectsLower("https", "share.icloud.com", "/photos/abc123", "", "", ICloud);
  }

  lemma DetectsWwwICloudWithFragmentParts()
    ensures HostText("www.icloud.com") && PathText("/photos/")
  {
  }

  /** https://www.icloud.com/photos/#abc123 */
  lemma DetectsWwwICloudWithFragment()
    ensures DetectPlatform(Link("https", "www.icloud.com", "/photos/", "", "abc123")) == ICloud
  {
    DetectsWwwICloudWithFragmentParts();
    DotSuffixMatches("www.icloud.com", "icloud.com");
    DetectsLower("https", "www.icloud.com", "/photos/", "", "abc123", ICloud);
  }

  lemma DetectsICloudWithQueryParts()
    ensures HostText("share.icloud.com") && PathText("/photos/abc123") && PathText("foo=bar")
  {
  }

  /** https://share.icloud.com/photos/abc123?foo=bar */
  lemma DetectsICloudWithQuery()
    ensures DetectPlatform(Link("https", "share.icloud.com", "/photos/abc123", "foo=bar", "")) == ICloud
  {
    DetectsICloudWithQueryParts();
    DotSuffixMatches("share.icloud.com", "icloud.com");
    DetectsLower("https", "share.icloud.com", "/photos/abc123", "foo=bar", "", ICloud);
  }

  // Dropbox

  lemma DetectsDropboxFileParts()
    ensures HostText("www.dropbox.com") && PathText("/s/abc123/photo.png") && PathText("dl=0")
  {
  }

  /** https://www.dropbox.com/s/abc123/photo.png?dl=0 */
  lemma DetectsDropboxFile()
    ensures DetectPlatform(Link("https", "www.dropbox.com", "/s/abc123/photo.png", "dl=0", "")) == Dropbox
  {
    DetectsDropboxFileParts();
    DotSuffixMatches("www.dropbox.com", "dropbox.com");
    DetectsLower("https", "www.dropbox.com", "/s/abc123/photo.png", "dl=0", "", Dropbox);
  }

  lemma DetectsDropboxSclFileParts()
    ensures HostText("www.dropbox.com") && PathText("/scl/fi/abc123/photo.png")
  {
  }

  /** https://www.dropbox.com/scl/fi/abc123/photo.png */
  lemma DetectsDropboxSclFile()
    ensures DetectPlatform(Link("https", "www.dropbox.com", "/scl/fi/abc123/photo.png", "", "")) == Dropbox
  {
    DetectsDropboxSclFileParts();
    DotSuffixMatches("www.dropbox.com", "dropbox.com");
    DetectsLower("https", "www.dropbox.com", "/scl/fi/abc123/photo.png", "", "", Dropbox);
  }

  lemma DetectsDropboxSharedFolderParts()
    ensures HostText("www.dropbox.com") && PathText("/sh/abc123/folder")
  {
  }

  /** https://www.dropbox.com/sh/abc123/folder */
  lemma DetectsDropboxSharedFolder()
    ensures DetectPlatform(Link("https", "www.dropbox.com", "/sh/abc123/folder", "", "")) == Dropbox
  {
    DetectsDropboxSharedFolderParts();
    DotSuffixMatches("www.dropbox.com", "dropbox.com");
    DetectsLower("https", "www.dropbox.com", "/sh/abc123/folder", "", "", Dropbox);
  }

  // Google Photos

  lemma DetectsGooGlShortLinkParts()
    ensures HostText("photos.app.goo.gl") && PathText("/abc123")
  {
  }

  /** https://photos.app.goo.gl/abc123 */
  lemma DetectsGooGlShortLink()
    ensures DetectPlatform(Link("https", "photos.app.goo.gl", "/abc123", "", "")) == GPhotos
  {
    DetectsGooGlShortLinkParts();
    DetectsLower("https", "photos.app.goo.gl", "/abc123", "", "", GPhotos);
  }

  lemma DetectsGooglePhotosShareParts()
    ensures HostText("photos.google.com") && PathText("/share/abc123") && PathText("key=xyz")
  {
  }

  /** https://photos.google.com/share/abc123?key=xyz */
  lemma DetectsGooglePhotosShare()
    ensures DetectPlatform(Link("https", "photos.google.com", "/share/abc123", "key=xyz", "")) == GPhotos
  {
    DetectsGooglePhotosShareParts();
    DetectsLower("https", "photos.google.com", "/share/abc123", "key=xyz", "", GPhotos);
  }

  // Google Drive

  lemma DetectsDriveFileParts()
    ensures HostText("drive.google.com") && PathText("/file/d/abc123/view")
  {
  }

  /** https://drive.google.com/file/d/abc123/view */
  lemma DetectsDriveFile()
    ensures DetectPlatform(Link("https", "drive.google.com", "/file/d/abc123/view", "", "")) == GDrive
  {
    DetectsDriveFileParts();
    DetectsLower("https", "drive.google.com", "/file/d/abc123/view", "", "", GDrive);
  }

  lemma DetectsDriveOpenParts()
    ensures HostText("drive.google.com") && PathText("/open") && PathText("id=abc123")
  {
  }

  lemma DriveOpenQuery()
    ensures HasParam("id=abc123", "id")
  {
    HasSingleParam("id", "abc123");
    assert "id" + "=" + "abc123" == "id=abc123";
  }

  /** https://drive.google.com/open?id=abc123 */
  lemma DetectsDriveOpen()
    ensures DetectPlatform(Link("https", "drive.google.com", "/open", "id=abc123", "")) == GDrive
  {
    DetectsDriveOpenParts();
    DriveOpenQuery();
    DetectsLower("https", "drive.google.com", "/open", "id=abc123", "", GDrive);
  }

  lemma DetectsDocsFileParts()
    ensures HostText("docs.google.com") && PathText("/file/d/abc123/view")
  {
  }

  /** https://docs.google.com/file/d/abc123/view */
  lemma DetectsDocsFile()
    ensures DetectPlatform(Link("https", "docs.google.com", "/file/d/abc123/view", "", "")) == GDrive
  {
    DetectsDocsFileParts();
    DetectsLower("https", "docs.google.com", "/file/d/abc123/view", "", "", GDrive);
  }

  // Unknown

  lemma UnsupportedSiteUnknownParts()
    ensures HostText("example.com") && PathText("/photo.jpg")
  {
  }

  /** https://example.com/photo.jpg */
  lemma UnsupportedSiteUnknown()
    ensures DetectPlatform(Link("https", "example.com", "/photo.jpg", "", "")) == Unknown
  {
    UnsupportedSiteUnknownParts();
    PrefixMismatch("/photo.jpg", "/photos", 6);
    PrefixMismatch("/photo.jpg", "/s/", 1);
    PrefixMismatch("/photo.jpg", "/scl/fi/", 1);
    PrefixMismatch("/photo.jpg", "/sh/", 1);
    PrefixMismatch("/photo.jpg", "/share", 1);
    PrefixMismatch("/photo.jpg", "/file/d/", 1);
    PrefixMismatch("/photo.jpg", "/open", 1);
    DetectsLower("https", "example.com", "/photo.jpg", "", "", Unknown);
  }

  lemma EmptyStringUnknown()
    ensures DetectPlatform("") == Unknown
  {
    NonUrlUnknown("");
  }

  lemma PlainTextUnknown()
    ensures DetectPlatform("not a url") == Unknown
  {
    NonUrlUnknown("not a url");
  }

  lemma GluedDropboxUnknownParts()
    ensures HostText("fakedropbox.com") && PathText("/s/abc123")
  {
  }

  /** https://fakedropbox.com/s/abc123 */
  lemma GluedDropboxUnknown()
    ensures DetectPlatform(Link("https", "fakedropbox.com", "/s/abc123", "", "")) == Unknown
  {
    GluedDropboxUnknownParts();
    GluedHostUnrecognised(Url("https", "fakedropbox.com", "/s/abc123", ""), "fake", "dropbox.com");
    DetectsLower("https", "fakedropbox.com", "/s/abc123", "", "", Unknown);
  }

  lemma GluedICloudUnknownParts()
    ensures HostText("fakeicloud.com") && PathText("/photos/abc123")
  {
  }

  /** https://fakeicloud.com/photos/abc123 */
  lemma GluedICloudUnknown()
    ensures DetectPlatform(Link("https", "fakeicloud.com", "/photos/abc123", "", "")) == Unknown
  {
    GluedICloudUnknownParts();
    GluedHostUnrecognised(Url("https", "fakeicloud.com", "/photos/abc123", ""), "fake", "icloud.com");
    DetectsLower("https", "fakeicloud.com", "/photos/abc123", "", "", Unknown);
  }

  lemma HyphenatedICloudUnknownParts()
    ensures HostText("not-icloud.com") && PathText("/photos/abc123")
  {
  }

  /** https://not-icloud.com/photos/abc123 */
  lemma HyphenatedICloudUnknown()
    ensures DetectPlatform(Link("https", "not-icloud.com", "/photos/abc123", "", "")) == Unknown
  {
    HyphenatedICloudUnknownParts();
    GluedHostUnrecognised(Url("https", "not-icloud.com", "/photos/abc123", ""), "not-", "icloud.com");
    DetectsLower("https", "not-icloud.com", "/photos/abc123", "", "", Unknown);
  }

  // Userinfo and ports

  lemma UserinfoDropboxParts()
    ensures AuthorityText("www.dropbox.com@evil.com") && PathText("/s/x") && HostText("evil.com")
    ensures "www.dropbox.com@evil.com" == "www.dropbox.com" + "@" + "evil.com" + ""
  {
  }

  /** https://www.dropbox.com@evil.com/s/x: `www.dropbox.com` is userinfo,
      the host is `evil.com`, so the link is no Dropbox link. */
  lemma UserinfoDropboxUnknown()
    ensures DetectPlatform(Link("https", "www.dropbox.com@evil.com", "/s/x", "", "")) == Unknown
  {
    UserinfoDropboxParts();
    HostTextPlain("evil.com");
    HostOfUserinfo("www.dropbox.com", "evil.com", "");
    ShortHostUnrecognised(Url("https", "evil.com", "/s/x", ""));
    DetectsLowerAuthority("https", "www.dropbox.com@evil.com", "/s/x", "", "", Unknown);
  }

  lemma DropboxWithPortParts()
    ensures AuthorityText("www.dropbox.com:443") && PathText("/s/abc123")
  {
  }

  /** The host of `www.dropbox.com:443` is `www.dropbox.com`, a Dropbox host. */
  lemma DropboxWithPortHost()
    ensures HostOf("www.dropbox.com:443") == "www.dropbox.com"
    ensures MatchesDomain("www.dropbox.com", "dropbox.com")
  {
    DropboxWithPortSplit();
    HostTextPlain("www.dropbox.com");
    HostOfPort("www.dropbox.com", ":443");
    DotSuffixMatches("www.dropbox.com", "dropbox.com");
  }

  lemma DropboxWithPortSplit()
    ensures HostText("www.dropbox.com") && '@' !in ":443"
    ensures "www.dropbox.com:443" == "www.dropbox.com" + ":443"
  {
  }

  lemma DropboxWithPortLink()
    ensures Recognises(Url("https", HostOf("www.dropbox.com:443"), "/s/abc123", ""), Dropbox)
  {
    DropboxWithPortHost();
    assert StartsWith("/s/abc123", "/s/");
  }

  /** https://www.dropbox.com:443/s/abc123: the port is not part of the host. */
  lemma DetectsDropboxWithPort()
    ensures DetectPlatform(Link("https", "www.dropbox.com:443", "/s/abc123", "", "")) == Dropbox
  {
    DropboxWithPortParts();
    DropboxWithPortLink();
    DetectsLowerAuthority("https", "www.dropbox.com:443", "/s/abc123", "", "", Dropbox);
  }

  // Case insensitivity

  lemma UpperCaseDropboxHost()
    ensures Lowers("HTTPS", "https") && Lowers("WWW.DROPBOX.COM", "www.dropbox.com")
  {
  }

  lemma UpperCaseDropboxPath()
    ensures Lowers("/S/ABC123/PHOTO.PNG", "/s/abc123/photo.png")
  {
  }

  lemma LowerDropboxParts()
    ensures HostChars("www.dropbox.com") && PathChars("/s/abc123/photo.png")
  {
  }

  /** HTTPS://WWW.DROPBOX.COM/S/ABC123/PHOTO.PNG */
  lemma UpperCaseDropbox()
    ensures DetectPlatform(Link("HTTPS", "WWW.DROPBOX.COM", "/S/ABC123/PHOTO.PNG", "", "")) == Dropbox
  {
    UpperCaseDropboxHost();
    UpperCaseDropboxPath();
    LowerDropboxParts();
    DotSuffixMatches("www.dropbox.com", "dropbox.com");
    Detects("HTTPS", "WWW.DROPBOX.COM", "/S/ABC123/PHOTO.PNG", "", "",
            Url("https", "www.dropbox.com", "/s/abc123/photo.png", ""), Dropbox);
  }

  lemma MixedCaseICloudParts()
    ensures Lowers("https", "https") && Lowers("Share.iCloud.com", "share.icloud.com")
    ensures Lowers("/Photos/abc123", "/photos/abc123")
  {
  }

  lemma LowerICloudParts()
    ensures HostChars("share.icloud.com") && PathChars("/photos/abc123")
  {
  }

  /** https://Share.iCloud.com/Photos/abc123 */
  lemma MixedCaseICloud()
    ensures DetectPlatform(Link("https", "Share.iCloud.com", "/Photos/abc123", "", "")) == ICloud
  {
    MixedCaseICloudParts();
    LowerICloudParts();
    DotSuffixMatches("share.icloud.com", "icloud.com");
    Detects("https", "Share.iCloud.com", "/Photos/abc123", "", "",
            Url("https", "share.icloud.com", "/photos/abc123", ""), ICloud);
  }
}

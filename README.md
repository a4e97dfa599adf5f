# giil link core in Dafny

This project models the three small, pure string functions at the centre of
giil, an image-import tool for shared photo links:

- `extractGooglePhotosBaseUrl(url)` normalises a Google Photos CDN URL. It
  splits the URL at its last `=`. `baseUrl` is what comes before that `=`,
  or the whole URL when there is no `=`. `fullResUrl` is `baseUrl + "=s0"`.
- `detectPlatform(url)` classifies a shared link as `icloud`, `dropbox`,
  `gphotos`, `gdrive` or `unknown`.
  - The input is lower-cased and split into scheme, host, path and query.
  - An ordered list of (domain, path test, tag) rules is tried; the first
    rule that applies wins, and `unknown` is the default.
  - A host matches a domain only when it equals the domain or ends with `.`
    followed by the domain.
- `formatDateForFilename(date)` writes broken-down local time as
  `YYYYMMDD_HHMMSS`. `formatDateForJson(date)` writes UTC fields in the
  ISO 8601 extended format `YYYY-MM-DDTHH:MM:SS.sssZ` (ISO 8601-1:2019,
  section 5.4.2). Every field is zero-padded to its width; for the year of
  the filename layout that is a choice of this model (see "## Left out").

The repository's own description of these functions lives in its test
suites, and the model follows those tests.

Modules:

- `Text` (text.dfy) holds the string helpers: ASCII case mapping,
  `startsWith`/`endsWith`, `lastIndexOf` and a search for the first of a set
  of characters.
- `Digits` (digits.dfy) holds decimal rendering (`String(n).padStart(w, "0")`),
  its fixed-width reading and inverse, and JavaScript's default string order.
- `GooglePhotosUrl` (google_photos_url.dfy) models the CDN URL normaliser.
- `PlatformDetection` (platform_detection.dfy) models the URL split, the rule
  list, the classifier, and each tag described independently of the rules.
- `DateFormatting` (date_formatting.dfy) models both timestamp layouts, a
  reader for the JSON layout, and a count of elapsed days, seconds and
  milliseconds that serves as the independent meaning of "earlier".
- `GooglePhotosUrlExamples`, `PlatformDetectionExamples` and
  `DateFormattingExamples` state the test suites' concrete cases as lemmas.

Decisions:

- Host matching follows the domain-boundary rule for every rule domain, so
  any subdomain matches. `share.icloud.com`, `www.icloud.com` and bare
  `icloud.com` all match `icloud.com`, and so would `foo.icloud.com`. The
  tests name only the first forms; the boundary rule is stated for all hosts.
- Only `http://` and `https://` inputs are read as URLs. Anything else is
  `unknown`, including the empty string and plain text.
- The path prefixes are compared after lower-casing, as the upper-case and
  mixed-case tests require (`/S/`, `/Photos/`).
- The `/open` Drive rule requires an `id` parameter. A parameter is a piece
  of the query between `&`s whose name, the part before any `=`, is `id`.
- Years are 0 to 9999. The JSON layout writes them with four digits, as
  `toISOString` does; the filename layout is modelled as writing them with
  four digits too. Dates must exist in the Gregorian calendar, as a
  JavaScript `Date`'s fields always do.
- The host of a URL is read from its authority: what follows the last `@`,
  up to a `:` that starts the port. `https://www.dropbox.com@evil.com/s/x`
  therefore has the host `evil.com` and is `unknown`.

## Model

| member | source | states |
|---|---|---|
| GooglePhotosUrl.ExtractGooglePhotosBaseUrl | scripts/tests/google-photos-url.test.mjs:37-94 | `fullResUrl` is `baseUrl + "=s0"` and ends with `=s0`; `baseUrl` is a prefix of the input; with no `=` it is the input; otherwise the input continues with one `=` and a tail free of `=` |
| GooglePhotosUrl.BaseUrlOfSplit | scripts/tests/google-photos-url.test.mjs:37-66 | for any base and any modifier without `=`, the base URL of `base=modifier` is `base` and the full-resolution URL is `base=s0` |
| GooglePhotosUrl.SplitOfBaseUrl | scripts/tests/google-photos-url.test.mjs:98-106 | every input with an `=` is its base URL, an `=`, and a tail without `=`: the split is at the last `=` |
| GooglePhotosUrl.RenormaliseSingleModifier | scripts/tests/google-photos-url.test.mjs:37-76 | with one `=` in the input, the base URL holds no `=` and normalising it again returns it unchanged |
| GooglePhotosUrlExamples.StripsWidthHeightModifier | scripts/tests/google-photos-url.test.mjs:37-43 | `.../ABC123=w1920-h1080` gives base `.../ABC123` and full-resolution `.../ABC123=s0` |
| GooglePhotosUrlExamples.StripsWidthModifier | scripts/tests/google-photos-url.test.mjs:45-51 | `.../XYZ789=w800` gives `.../XYZ789` and `.../XYZ789=s0` |
| GooglePhotosUrlExamples.StripsSquareModifier | scripts/tests/google-photos-url.test.mjs:53-59 | `.../DEF456=s200` gives `.../DEF456` and `.../DEF456=s0` |
| GooglePhotosUrlExamples.StripsNoCropModifier | scripts/tests/google-photos-url.test.mjs:61-66 | `.../LONG123=w1920-h1080-no` gives `.../LONG123` |
| GooglePhotosUrlExamples.KeepsUrlWithoutModifier | scripts/tests/google-photos-url.test.mjs:70-76 | `.../NOMOD123` is its own base URL and gains `=s0` |
| GooglePhotosUrlExamples.LastEqualsWinsInPath | scripts/tests/google-photos-url.test.mjs:98-106 | `.../ABC=DEF=w100` gives `.../ABC=DEF` |
| GooglePhotosUrlExamples.RenormaliseTwoEquals | scripts/tests/google-photos-url.test.mjs:98-106 | with two `=`, the base URL still holds an `=`, so normalising it again strips once more |
| GooglePhotosUrlExamples.StripsRemainingModifier | scripts/tests/google-photos-url.test.mjs:98-106 | the base URL `.../ABC=DEF`, normalised again, gives `.../ABC` |
| GooglePhotosUrlExamples.LongIdentifier | scripts/tests/google-photos-url.test.mjs:108-117 | any identifier of 200 `A`s, followed by `=w1920`, gives the URL up to the identifier |
| GooglePhotosUrlExamples.QueryStringQuirk | scripts/tests/google-photos-url.test.mjs:119-127 | `.../ABC=w100?query=1` gives `.../ABC=w100?query`: the split falls inside the query string |
| PlatformDetection.HostOf | scripts/tests/platform-detection.test.mjs:138-156 | the host is the text of the authority that starts after its last `@` (at its start when it has none) and runs up to the next `:` or the end; it holds no `@` and no `:`, and an authority with neither is all host |
| PlatformDetection.HostAtUnique | scripts/tests/platform-detection.test.mjs:138-156 | that description allows one host only: two hosts written in one authority by it are the same, from the same index |
| PlatformDetection.HostOfUserinfo | scripts/tests/platform-detection.test.mjs:138-156 | the host of `user@host:port`, with no `@` in host or port and no `:` in host, is `host`, whatever the userinfo holds, so `www.dropbox.com@evil.com` has the host `evil.com` |
| PlatformDetection.HostOfPort | scripts/tests/platform-detection.test.mjs:138-156 | the host of `host:port`, with no userinfo, is `host` |
| PlatformDetection.ParseUrl | scripts/tests/platform-detection.test.mjs:123-136 | a URL is read exactly when the input starts with `https://` or `http://`; the parts read are well formed and the scheme is the one written |
| PlatformDetection.ParseCompose | scripts/tests/platform-detection.test.mjs:38-57 | reading a written-out URL, with or without a fragment, gives back its scheme, host, path and query |
| PlatformDetection.ParseAuthority | scripts/tests/platform-detection.test.mjs:36-156 | reading `scheme://authority path ?query #fragment`, where the authority holds no `/`, `?` or `#`, gives the host of the authority and the path and query as written |
| PlatformDetection.Split | scripts/tests/platform-detection.test.mjs:107-112 | splitting a query at `&` gives at least one piece, no piece holds `&`, and joining the pieces gives the query back |
| PlatformDetection.KeyOf | scripts/tests/platform-detection.test.mjs:107-112 | the name of a pair is the longest prefix without `=`: it holds no `=` and ends where the pair ends or at its first `=` |
| PlatformDetection.HasParam | scripts/tests/platform-detection.test.mjs:107-112 | a query has a parameter only when the name holds no `=` and no `&`; HasSingleParam shows `name=value` has it |
| PlatformDetection.HasSingleParam | scripts/tests/platform-detection.test.mjs:107-112 | a query `name=value` has the parameter `name` |
| PlatformDetection.FirstApplying | scripts/tests/platform-detection.test.mjs:36-174 | the index found is the first rule that applies: no earlier rule applies, and the rule there applies unless the index is past the end |
| PlatformDetection.MatchesDomain | scripts/tests/platform-detection.test.mjs:138-156 | the domain-boundary check: a host that matches a domain ends with it (DomainBoundary gives both directions) |
| PlatformDetection.DomainBoundary | scripts/tests/platform-detection.test.mjs:138-156 | a host matches a domain exactly when it is the domain, or it ends with the domain and the character before that is `.` |
| PlatformDetection.GluedLabelRejected | scripts/tests/platform-detection.test.mjs:138-156 | a name glued onto a domain without a `.` does not match that domain |
| PlatformDetection.SubdomainAccepted | scripts/tests/platform-detection.test.mjs:38-50 | a name, a `.` and a domain make a host that matches the domain |
| PlatformDetection.SuffixDecides | scripts/tests/platform-detection.test.mjs:138-156 | a host ending with one domain matches no domain that differs from it at a given character counted from the end |
| PlatformDetection.DomainsApart | scripts/tests/platform-detection.test.mjs:36-174 | two domains that differ at a character counted from the end are never both matched by one host |
| PlatformDetection.LinksExclusive | scripts/tests/platform-detection.test.mjs:36-174 | no URL meets the descriptions of two platforms |
| PlatformDetection.RulesRecognise | scripts/tests/platform-detection.test.mjs:36-174 | the tag of the first applying rule is a tag whose description the URL meets; `unknown` means it meets none |
| PlatformDetection.ExactlyOneTag | scripts/tests/platform-detection.test.mjs:36-174 | two tags whose descriptions one URL meets are the same tag; with RulesRecognise, every URL gets exactly one |
| PlatformDetection.DetectPlatform | scripts/tests/platform-detection.test.mjs:36-174 | text that is no `http(s)` URL once lower-cased is `unknown`, and a URL gets a tag whose description it meets, `unknown` when it meets none; with ExactlyOneTag no other tag qualifies |
| PlatformDetection.DetectPlatformMeaning | scripts/tests/platform-detection.test.mjs:36-174 | the classifier returns `t` exactly when the lower-cased input is no URL and `t` is `unknown`, or it is a URL that meets `t`'s description |
| PlatformDetection.CaseInsensitive | scripts/tests/platform-detection.test.mjs:160-172 | inputs that are equal after lower-casing get the same tag |
| PlatformDetection.DetectIgnoresCase | scripts/tests/platform-detection.test.mjs:160-172 | lower-casing or upper-casing the input does not change its tag |
| PlatformDetection.GluedHostUnrecognised | scripts/tests/platform-detection.test.mjs:138-156 | a host made by gluing a name not ending in `.` onto any rule domain meets no platform's description, whatever the path |
| PlatformDetection.OnlyICloud | scripts/tests/platform-detection.test.mjs:146-156 | a host ending with `icloud.com` matches none of the other rule domains |
| PlatformDetection.OnlyDropbox | scripts/tests/platform-detection.test.mjs:138-144 | a host ending with `dropbox.com` matches none of the other rule domains |
| PlatformDetection.OnlyGooGl | scripts/tests/platform-detection.test.mjs:84-89 | a host ending with `photos.app.goo.gl` matches none of the other rule domains |
| PlatformDetection.OnlyPhotosGoogle | scripts/tests/platform-detection.test.mjs:91-96 | a host ending with `photos.google.com` matches none of the other rule domains |
| PlatformDetection.OnlyDriveGoogle | scripts/tests/platform-detection.test.mjs:100-112 | a host ending with `drive.google.com` matches none of the other rule domains |
| PlatformDetection.OnlyDocsGoogle | scripts/tests/platform-detection.test.mjs:114-119 | a host ending with `docs.google.com` matches none of the other rule domains |
| PlatformDetection.DetectWritten | scripts/tests/platform-detection.test.mjs:38-119 | an input that lower-cases to a well-formed written-out URL gets the tag whose description that URL meets |
| PlatformDetection.DetectAuthority | scripts/tests/platform-detection.test.mjs:138-156 | an input that lower-cases to a URL whose authority may carry userinfo and a port is classified by the host of that authority |
| PlatformDetection.ShortHostUnrecognised | scripts/tests/platform-detection.test.mjs:123-156 | a host shorter than ten characters, shorter than every rule domain, is no platform's link |
| PlatformDetection.NonUrlUnknown | scripts/tests/platform-detection.test.mjs:130-136 | an input that does not start with `http://` or `https://`, in any case, is `unknown` |
| PlatformDetection.ToLowerWritten | scripts/tests/platform-detection.test.mjs:160-172 | lower-casing a written-out URL lower-cases each of its parts |
| PlatformDetectionExamples.Detects | scripts/tests/platform-detection.test.mjs:160-172 | a link whose parts lower-case to those of a well-formed URL of platform `t` is classified as `t` |
| PlatformDetectionExamples.DetectsLower | scripts/tests/platform-detection.test.mjs:38-156 | a lower-case link with plain host, path and query gets the tag its URL's description names |
| PlatformDetectionExamples.DetectsLowerAuthority | scripts/tests/platform-detection.test.mjs:138-156 | a lower-case link whose authority may carry userinfo and a port gets the tag whose description the URL with the authority's host meets |
| PlatformDetectionExamples.DetectsShareICloud | scripts/tests/platform-detection.test.mjs:38-43 | `https://share.icloud.com/photos/abc123` is `icloud` |
| PlatformDetectionExamples.DetectsWwwICloudWithFragment | scripts/tests/platform-detection.test.mjs:45-50 | `https://www.icloud.com/photos/#abc123` is `icloud` |
| PlatformDetectionExamples.DetectsICloudWithQuery | scripts/tests/platform-detection.test.mjs:52-57 | `https://share.icloud.com/photos/abc123?foo=bar` is `icloud` |
| PlatformDetectionExamples.DetectsDropboxFile | scripts/tests/platform-detection.test.mjs:61-66 | `https://www.dropbox.com/s/abc123/photo.png?dl=0` is `dropbox` |
| PlatformDetectionExamples.DetectsDropboxSclFile | scripts/tests/platform-detection.test.mjs:68-73 | `https://www.dropbox.com/scl/fi/abc123/photo.png` is `dropbox` |
| PlatformDetectionExamples.DetectsDropboxSharedFolder | scripts/tests/platform-detection.test.mjs:75-80 | `https://www.dropbox.com/sh/abc123/folder` is `dropbox` |
| PlatformDetectionExamples.DetectsGooGlShortLink | scripts/tests/platform-detection.test.mjs:84-89 | `https://photos.app.goo.gl/abc123` is `gphotos` |
| PlatformDetectionExamples.DetectsGooglePhotosShare | scripts/tests/platform-detection.test.mjs:91-96 | `https://photos.google.com/share/abc123?key=xyz` is `gphotos` |
| PlatformDetectionExamples.DetectsDriveFile | scripts/tests/platform-detection.test.mjs:100-105 | `https://drive.google.com/file/d/abc123/view` is `gdrive` |
| PlatformDetectionExamples.DetectsDriveOpen | scripts/tests/platform-detection.test.mjs:107-112 | `https://drive.google.com/open?id=abc123` is `gdrive` |
| PlatformDetectionExamples.DetectsDocsFile | scripts/tests/platform-detection.test.mjs:114-119 | `https://docs.google.com/file/d/abc123/view` is `gdrive` |
| PlatformDetectionExamples.UnsupportedSiteUnknown | scripts/tests/platform-detection.test.mjs:123-128 | `https://example.com/photo.jpg` is `unknown` |
| PlatformDetectionExamples.EmptyStringUnknown | scripts/tests/platform-detection.test.mjs:130-132 | the empty string is `unknown` |
| PlatformDetectionExamples.PlainTextUnknown | scripts/tests/platform-detection.test.mjs:134-136 | `not a url` is `unknown` |
| PlatformDetectionExamples.GluedDropboxUnknown | scripts/tests/platform-detection.test.mjs:138-144 | `https://fakedropbox.com/s/abc123` is `unknown` |
| PlatformDetectionExamples.GluedICloudUnknown | scripts/tests/platform-detection.test.mjs:146-151 | `https://fakeicloud.com/photos/abc123` is `unknown` |
| PlatformDetectionExamples.HyphenatedICloudUnknown | scripts/tests/platform-detection.test.mjs:152-155 | `https://not-icloud.com/photos/abc123` is `unknown` |
| PlatformDetectionExamples.UserinfoDropboxUnknown | scripts/tests/platform-detection.test.mjs:138-156 | `https://www.dropbox.com@evil.com/s/x` is `unknown`: the text before `@` is userinfo and the host is `evil.com`, so no substring of the input decides the tag |
| PlatformDetectionExamples.DetectsDropboxWithPort | scripts/tests/platform-detection.test.mjs:60-80 | `https://www.dropbox.com:443/s/abc123` is `dropbox`: the port is not part of the host |
| PlatformDetectionExamples.UpperCaseDropbox | scripts/tests/platform-detection.test.mjs:160-165 | `HTTPS://WWW.DROPBOX.COM/S/ABC123/PHOTO.PNG` is `dropbox` |
| PlatformDetectionExamples.MixedCaseICloud | scripts/tests/platform-detection.test.mjs:167-172 | `https://Share.iCloud.com/Photos/abc123` is `icloud` |
| Text.ToLower | scripts/tests/platform-detection.test.mjs:160-172 | lower-casing keeps the length and lower-cases each character |
| Text.ToLowerIdempotent | scripts/tests/platform-detection.test.mjs:160-172 | lower-casing twice is lower-casing once |
| Text.ToLowerOfToUpper | scripts/tests/platform-detection.test.mjs:160-165 | lower-casing an upper-cased string is lower-casing the original |
| Text.LastIndexOf | scripts/tests/google-photos-url.test.mjs:98-106 | the index found holds the character and nothing after it does; -1 exactly when the character is absent |
| Digits.PadStartDecimal | scripts/tests/date-formatting.test.mjs:38-42 | `String(n).padStart(w, "0")` is the `w`-digit rendering of `n` whenever `n` fits in `w` digits |
| Digits.ValueOfFixed | scripts/tests/date-formatting.test.mjs:100-105 | reading a fixed-width rendering gives the number back |
| Digits.FixedValueOf | scripts/tests/date-formatting.test.mjs:100-105 | rendering what a digit string denotes, at its own width, gives the string back |
| Digits.FixedInjective | scripts/tests/date-formatting.test.mjs:70-82 | two renderings of one width are equal exactly when the numbers are |
| Digits.FixedConcat | scripts/tests/date-formatting.test.mjs:70-82 | fixed-width renderings side by side are the rendering of one shifted-and-added number |
| Digits.LexLessConcat | scripts/tests/date-formatting.test.mjs:70-82 | comparing concatenations with equal-length first parts compares the first parts, then on a tie the second parts |
| Digits.LexLessFixed | scripts/tests/date-formatting.test.mjs:70-82 | on renderings of one width, string order is numeric order |
| DateFormatting.PadIsFixed | scripts/tests/date-formatting.test.mjs:38-42 | each zero-padded field is its fixed-width rendering |
| DateFormatting.FormatDateForFilename | scripts/tests/date-formatting.test.mjs:31-36 | the filename has 15 characters with `_` at position 8 |
| DateFormatting.FilenameLayout | scripts/tests/date-formatting.test.mjs:31-36 | year, month, day, hour, minute and second sit at fixed positions as fixed-width renderings, and every position but 8 is a digit |
| DateFormatting.FilenameFields | scripts/tests/date-formatting.test.mjs:31-42 | every field of a filename reads back as the value it was written from |
| DateFormatting.FilenameMatches | scripts/tests/date-formatting.test.mjs:38-68 | a 15-character string with `_` at 8 and each field's digits in its slot is the filename of that date |
| DateFormatting.FilenamePadsSingleDigits | scripts/tests/date-formatting.test.mjs:38-42 | a month, day, hour, minute or second below ten is written with a leading `0` |
| DateFormatting.SecondBeforeIsChronological | scripts/tests/date-formatting.test.mjs:70-82 | field-by-field order to the second is order of elapsed seconds, and equal fields to the second are equal elapsed seconds |
| DateFormatting.FilenameOrderIsFieldOrder | scripts/tests/date-formatting.test.mjs:70-82 | one filename sorts before another exactly when its date is earlier field by field, and they are equal exactly when the dates agree to the second |
| DateFormatting.FilenameOrderIsChronological | scripts/tests/date-formatting.test.mjs:70-82 | one filename sorts before another exactly when its date is earlier in elapsed seconds, and they are equal exactly when the elapsed seconds are |
| DateFormatting.FilenameAsNumbers | scripts/tests/date-formatting.test.mjs:70-82 | a filename is the 8-digit rendering of the date number, `_`, and the 6-digit rendering of the time number |
| DateFormatting.FormatDateForJson | scripts/tests/date-formatting.test.mjs:88-98 | the JSON timestamp has 24 characters with `-`, `-`, `T`, `:`, `:`, `.` and `Z` at their fixed positions |
| DateFormatting.JsonFields | scripts/tests/date-formatting.test.mjs:88-98 | every field of a JSON timestamp, milliseconds included, reads back as the value it was written from |
| DateFormatting.JsonMatches | scripts/tests/date-formatting.test.mjs:88-119 | a string with the separators in place and each field's digits in its slot is the JSON timestamp of that date |
| DateFormatting.JsonRoundTrip | scripts/tests/date-formatting.test.mjs:100-105 | reading the JSON timestamp back gives the fields it was written from, hence the same elapsed milliseconds |
| DateFormatting.JsonCanonical | scripts/tests/date-formatting.test.mjs:100-105 | every string the reader accepts is exactly the timestamp written for the fields it yields |
| DateFormattingExamples.PadsSingleDigitFields | scripts/tests/date-formatting.test.mjs:38-42 | 2025-01-05 09:05:03 gives `20250105_090503` |
| DateFormattingExamples.FormatsMidnight | scripts/tests/date-formatting.test.mjs:44-48 | 2025-06-15 00:00:00 gives `20250615_000000` |
| DateFormattingExamples.FormatsEndOfDay | scripts/tests/date-formatting.test.mjs:50-54 | 2025-12-31 23:59:59 gives `20251231_235959` |
| DateFormattingExamples.FormatsLeapDay | scripts/tests/date-formatting.test.mjs:58-62 | February 29th exists in 2024 but not in 2023, and 2024-02-29 12:30:00 gives `20240229_123000` |
| DateFormattingExamples.FormatsYear2000 | scripts/tests/date-formatting.test.mjs:64-68 | 2000-01-01 00:00:00 gives `20000101_000000` |
| DateFormattingExamples.SortsChronologically | scripts/tests/date-formatting.test.mjs:70-82 | the three filenames of the sort test compare as strings in the order June 14th 10:30, June 15th 9:30, June 15th 10:30, which is also their order in elapsed seconds |
| DateFormattingExamples.FormatsIsoString | scripts/tests/date-formatting.test.mjs:88-92 | 2025-03-15 14:30:45.000 gives `2025-03-15T14:30:45.000Z` |
| DateFormattingExamples.IncludesMilliseconds | scripts/tests/date-formatting.test.mjs:94-98 | 123 milliseconds appear as `.123Z` at the end |
| DateFormattingExamples.FormatsEpoch | scripts/tests/date-formatting.test.mjs:109-113 | 1970-01-01 00:00:00.000 gives `1970-01-01T00:00:00.000Z` |
| DateFormattingExamples.FormatsFarFuture | scripts/tests/date-formatting.test.mjs:115-119 | 2099-12-31 23:59:59.999 gives `2099-12-31T23:59:59.999Z` |
| DateFormattingExamples.ParsesBackToSameInstant | scripts/tests/date-formatting.test.mjs:100-105 | 2025-06-20 08:15:30.500 reads back as the same fields and the same elapsed milliseconds |

## Left out

- The test harness is not modelled. It runs a function extractor, writes and deletes a temporary module and imports it dynamically, which is process and file I/O. The extractor script and the `giil` script that defines the functions are not part of this model.
- The conversion of a `Date` to local-time fields, which depends on the machine's timezone, is not modelled. `formatDateForFilename` starts from fields that are already local. So the "elapsed seconds" of `FilenameOrderIsChronological` count local wall-clock fields, not real instants: where daylight saving time falls back, two real instants an hour apart can get filenames that sort against their true order.
- DateFormatting.FormatDateForFilename: writes a year below 1000 with leading zeros (`0999`). The tests pin only the years 2000, 2024 and 2025, and giil's formatter is not part of this model. A formatter that writes the year unpadded would give `999…` there. So the four-digit year, and `FilenameOrderIsChronological` for years below 1000, are this model's choice. For years 1000 to 9999 the two readings agree.
- JavaScript `Date` internals are not modelled: epoch-millisecond storage, `toISOString` and `new Date(string)`. The JSON formatter starts from UTC fields. The round trip is stated through the model's own reader `ParseJsonDate` and an elapsed-milliseconds count from year 0.
- Years outside 0 to 9999 are left out. `toISOString` writes them with a sign and six digits, and `padStart` leaves longer years at full length.
- Full WHATWG URL parsing is left out: IDNA, percent-decoding, IPv6 hosts, backslashes, default ports, whitespace trimming, and schemes other than `http` and `https`. Only the scheme, host, path and query split that the rules need is modelled.
- Query parameters are not percent-decoded as `URLSearchParams` would decode them.
- Case mapping covers ASCII letters only. JavaScript's `toLowerCase` also maps non-ASCII letters.
- Text.ToLower: lowers ASCII letters only, because non-ASCII case mapping tables are outside the model. The same holds for `Text.ToUpper`, and so `PlatformDetection.DetectIgnoresCase` holds for the model's ASCII mapping only. In JavaScript, `"ı".toUpperCase()` is `"I"`, so `https://ıcloud.com/photos` is `unknown` while its upper-cased form lower-cases to an iCloud link.
- Download, network and manifest-writing code in giil is not modelled. It is I/O and is not part of this model.

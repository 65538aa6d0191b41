# YouTube playlist scraper, modelled in Dafny

`extract_urls.js` is a browser-console script run on a rendered YouTube playlist page.
It reads every playlist item's `title` attribute and link. It builds a table from trimmed
video title to a canonical watch URL `https://www.youtube.com/watch?v=<id>`; a later video
with the same title replaces an earlier one, and those replacements are counted. It
resolves the playlist's name, falling back to `Untitled Playlist`. It wraps the table as
`{ <playlist name>: <table> }` and downloads it as a JSON file named after the playlist,
with every character outside `[A-Za-z0-9_]` turned into `-`, lower-cased, and `playlist`
used when that leaves nothing. When the page shows no items at all, the script stops before
building anything.

The model takes the two DOM queries as inputs:

- the located items are a sequence of `ItemElement(titleAttribute, videoId)`, where
  `videoId` is the value the browser's URL API gives for the link's `v` parameter, or `None`;
- the playlist-title element is an `Option<string>` holding its text content.

Modules, in dependency order:

- `Wrappers`: `Option`.
- `Text`: `Trim` with exactly the characters ECMAScript's `String.prototype.trim` removes
  (WhiteSpace and LineTerminator, with the Unicode `Zs` category as it stands since Unicode
  6.3). It also holds the ASCII class `[A-Za-z0-9_]` and ASCII lower-casing.
- `Extraction`: the per-item record (`Video`) and the canonical URL template.
- `Aggregation`: the `forEach` fold as a method with a loop. `AddVideo` is the callback and
  `CollectVideos` the loop. `Collects` is the specification: the keys are the titles, and
  each title maps to the URL of its last record. `Overwrites` is the counter's specification.
- `Export`: label resolution, the single-key export object, and the filename sanitiser.
- `Scraper`: the top-level run with its early exit. Console warnings are returned as
  `Warning` values, in the order the script prints them.

Two properties of the script that follow from its code:

- When a link has no `v` parameter, the URL ends in `v=null`, because a template literal
  renders `null` as `null`.
- Key order in the serialised JSON is not first-seen order: the engine puts integer-like keys
  first. The model's table is a map, so it does not carry key order.

## Model

| member | source | states |
|---|---|---|
| Text.Trim | extract_urls.js:36 | the trimmed string is no longer than the input and has no whitespace character at either end |
| Text.TrimSplits | extract_urls.js:36 | the input is all-whitespace text, then the trimmed string, then all-whitespace text: trimming removes only whitespace, and only at the ends |
| Text.TrimUnique | extract_urls.js:36 | any split of the input into whitespace, a middle with no whitespace at its ends, and whitespace has that middle equal to the trimmed string, so the two properties above define trim completely |
| Text.TrimIdempotent | extract_urls.js:63 | trimming an already trimmed title or label changes nothing |
| Text.TrimAllWhitespace | extract_urls.js:63 | text made only of whitespace trims to the empty string |
| Text.LeadingWhitespace | extract_urls.js:36 | the count is the length of the longest all-whitespace prefix: every character before it is whitespace and the one at it is not |
| Text.TrailingWhitespace | extract_urls.js:36 | the count is the length of the longest all-whitespace suffix |
| Extraction.CanonicalUrlRoundTrip | extract_urls.js:43-45 | every cleaned URL starts with `https://www.youtube.com/watch?v=`; reading the id back after that prefix gives the `v` value, or the text `null` when the parameter is absent |
| Extraction.CanonicalUrlInjective | extract_urls.js:43-45 | two items have the same cleaned URL if and only if their `v` values are equal, or one is absent and the other is the literal value `null` |
| Extraction.ParamText | extract_urls.js:43-45 | the rendered `v` parameter is its value when present and the text `null` when `searchParams.get` returns `null` |
| Extraction.CanonicalUrl | extract_urls.js:43-45 | every cleaned URL starts with the watch prefix, and what follows the prefix is the rendered `v` parameter |
| Extraction.Extract | extract_urls.js:36-45 | the callback's record has the trimmed `title` attribute as its title, with no whitespace at its ends, and the cleaned URL of the item's `v` value |
| Extraction.ExtractAll | extract_urls.js:35 | there is one record per located item |
| Extraction.ExtractAllPointwise | extract_urls.js:35 | record `i` is the record of item `i`: the items are processed in page order |
| Extraction.VideoIdOf | extract_urls.js:43-45 | the inverse reading of a watch URL: it gives an id exactly when the URL starts with the watch prefix, and the URL is then the prefix followed by that id |
| Extraction.ExtractIsCanonical | extract_urls.js:35-45 | a record's title is the trimmed `title` attribute and has no whitespace at its ends; its URL is a watch URL carrying the item's `v` value |
| Aggregation.AddVideo | extract_urls.js:35-50 | one callback step: the new table is the old one with the item's title set to its cleaned URL, its keys are the old keys plus that title, every other entry is unchanged, and the counter rises by 1 exactly when the title was already a key |
| Aggregation.CollectVideos | extract_urls.js:32-51 | after the loop, the table's keys are exactly the trimmed titles of the items, each title maps to the URL of the last item carrying it, and the counter equals the number of items minus the number of distinct titles |
| Aggregation.CollectsStep | extract_urls.js:47-50 | inserting one more record into a table that collects the earlier records gives a table that collects them all, and the overwrite count rises by 1 exactly when the title was already a key |
| Aggregation.CollectsUnique | extract_urls.js:32-51 | two tables that both collect the same records are equal: the items alone determine the exported table |
| Aggregation.Collects | extract_urls.js:32-51 | the specification of the finished table: its keys are exactly the records' titles and each title maps to the URL of the last record carrying it; such a table never has more entries than there are items |
| Aggregation.Overwrites | extract_urls.js:47-48 | the specification of the duplicate counter: records minus distinct titles; on a non-empty page it is less than the number of items, because the first insert always creates a key |
| Aggregation.LastIndexOf | extract_urls.js:50 | for a title that occurs, the position found holds that title and no later record holds it |
| Aggregation.CollectsLastWins | extract_urls.js:50 | every key of a collected table maps to the URL of the last record with that title |
| Aggregation.TitleCount | extract_urls.js:47-49 | there are never more distinct titles than records, and the numbers are equal if and only if no title repeats |
| Aggregation.OverwritesZeroIffDistinct | extract_urls.js:53-57 | the duplicate counter is 0 exactly when all titles are distinct, so the duplicate warning is issued exactly when some title repeats |
| Aggregation.DuplicateTitleExample | extract_urls.js:32-51 | for titles A, B, A with URLs u1, u2, u3 the table is exactly A to u3 and B to u2, and one overwrite is counted |
| Export.ResolveLabel | extract_urls.js:60-66 | the label is `Untitled Playlist` and the missing flag is set when there is no title element; otherwise the label is the element's trimmed text; either way the label has no whitespace at its ends |
| Export.ExportObject | extract_urls.js:69-71 | the export object has exactly one key, the label, and it maps to the video table |
| Export.PrepareExport | extract_urls.js:60-95 | the label is resolved as above, the export object is the table under that single label, and the download name is the sanitised label plus `.json` |
| Export.ReplaceNonWord | extract_urls.js:94 | the replacement keeps the length and, position for position, keeps a character of `[A-Za-z0-9_]` and turns every other character into `-` |
| Export.ToLowerCase | extract_urls.js:94 | lower-casing keeps the length and lower-cases each ASCII letter in place |
| Export.Sanitize | extract_urls.js:93-94 | the file stem is never empty and contains only characters of `[a-z0-9_-]` |
| Export.SanitizeChar | extract_urls.js:94 | a character of `[A-Za-z0-9_]` appears lower-cased in the stem, and any other character appears as `-` |
| Export.SanitizePointwise | extract_urls.js:93-94 | a non-empty label gives a stem of the same length whose every position is that label character sanitised; only the empty label falls back to `playlist` |
| Export.SanitizeFixesStems | extract_urls.js:93-94 | a non-empty string made only of `[a-z0-9_-]` is its own file stem |
| Export.SanitizeIdempotent | extract_urls.js:93-94 | sanitising a sanitised name returns it unchanged |
| Export.SanitizeConcat | extract_urls.js:94 | the sanitiser works character by character: the stem of two non-empty parts joined is the two stems joined |
| Export.DownloadName | extract_urls.js:81 | the download name is the sanitised label followed by `.json` |
| Export.UntitledPlaylistFileName | extract_urls.js:93-94 | the default label `Untitled Playlist` sanitises to `untitled-playlist` |
| Export.UntitledPlaylistDownloadName | extract_urls.js:81 | the default label is downloaded as `untitled-playlist.json` |
| Export.PunctuatedLabelFileName | extract_urls.js:93-94 | `Lo-Fi Beats! 2024` sanitises to `lo-fi-beats--2024`: the space and the `!` each become `-` |
| Export.BlankTitleFileName | extract_urls.js:62-63 | a title element whose text is only whitespace gives the empty label, and so the download name `playlist.json` |
| Scraper.Scrape | extract_urls.js:21-95 | the run stops with no export exactly when no items were found; otherwise it exports the resolved label mapped to a table that collects the items, names the file after the sanitised label, and issues the duplicate warning (with the count) when the count is positive and then the missing-title warning when the title element is absent |
| Scraper.Warnings | extract_urls.js:53-65 | the duplicate warning, carrying the count, is issued exactly when the count is positive; the missing-title warning is issued exactly when there is no title element; there are no other warnings, and the duplicate warning comes first |
| Scraper.DuplicateWarningIffRepeatedTitle | extract_urls.js:53-57 | a duplicate warning is issued if and only if two items share a trimmed title, and its count is the number of items minus the number of distinct titles |

## Left out

- DOM querying (`document.querySelectorAll` and `document.querySelector`, the selector strings, lines 12-19 and 61) is host I/O. The items found and the title element's text are inputs.
- Link resolution against `window.location.origin` and reading the query string (`new URL(...)`, `searchParams.get`, lines 41-44) use the browser URL API. The `v` value is an input, so relative and absolute links, and percent-decoding of the value, are not modelled.
- `JSON.stringify`, `encodeURIComponent` and the `data:` URI (lines 76-78) are library serialisation. The model stops at the export object and the file name.
- The anchor element, its click and its removal (lines 79-84), the `try`/`catch` around them with the failure `alert` (lines 86-89), and every `console` message and `alert` are side effects. The no-items alert is the `NoVideosFound` outcome. The two console warnings are `Warning` values. Whether the download itself succeeds is not modelled.
- Key order of the serialised JSON is not modelled: the table and the export object are Dafny maps.
- A missing `title` attribute is not modelled: `getAttribute` then returns `null` and `.trim()` throws (line 36). Every item has a title string here.
- Own-property quirks of plain JavaScript objects are not modelled: a video titled `__proto__` is not stored by the assignment on line 50, and after a video titled `hasOwnProperty` is stored, `videoData.hasOwnProperty` is a string, so the call on line 47 for the next item throws a TypeError that ends the script before any file is downloaded. The table is a Dafny map with no reserved keys.
- Export.ToLowerCase: lower-cases ASCII letters only, not all of Unicode as `toLowerCase` does. This is exact for the sanitiser, because after the replacement only `[A-Za-z0-9_-]` remain.
- Export.ReplaceNonWord: a Dafny `char` is a Unicode scalar value, while JavaScript's regular expression without the `u` flag replaces UTF-16 code units. So a character outside the Basic Multilingual Plane becomes one `-` here but `--` in the script, and "same length" counts characters, not code units.
- Text.IsWhitespace: fixes the `Zs` category as of Unicode 6.3 and later. An engine on an older Unicode version would also trim U+180E.

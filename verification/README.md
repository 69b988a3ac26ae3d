# Patompong website core, modelled in Dafny

This project models the logic at the heart of a Next.js portfolio website for an
IT contractor. The site's public gallery comes from a Google Photos album. Each
photo is labelled by a vision model, and an administrator curates the results.

- **Gallery pipeline** (`src/actions/gallery.ts`).
  - Scrape the album page: undo JSON-escaped slashes, then try three URL/ID
    patterns in a fixed fallback order.
  - Canonicalise every match to `https://lh3.googleusercontent.com/pw/<token>`
    and deduplicate in first-occurrence order.
  - Cap the list at 30 and classify each photo one after another.
  - Build one record per photo, pausing 13 s between photos.
  - Fall back to a fixed list of twelve photos whenever anything is missing or
    fails.
- **Classifier post-processing** (same file).
  - Unwrap a Markdown code fence.
  - Coerce the category into the closed enumeration of `src/types/gallery.ts`.
  - Default the description.
  - Retry on HTTP 429 with a linear backoff.
- **Curation store** (`src/actions/galleryDb.ts`). A class holding a map from
  photo id to record. It supports:
  - listing;
  - upsert (`savePhotoMetadata`);
  - update-or-fail (`togglePhotoVisibility`).
- **Seeding route** (`src/app/api/seed-gallery/route.ts`). It upserts a curated
  30-entry table keyed by 10-character id prefixes, and reports visible and
  hidden counts.
- **Admin gallery manager** (`src/components/admin/GalleryManager.tsx`).
  - Merge the raw photo list with the saved metadata. Photos with no saved
    record are hidden and `Uncategorized`.
  - Toggle visibility optimistically, and revert on failure.
  - Save an edit.
  - Filter by category and search text, and display at most 48 photos.
- **Admin diagnostic route** (`src/app/api/admin/debug-gallery/route.ts`): the
  session check, per-pattern distinct counts and samples, mention counts and
  the excerpt window.
- **Public gallery filter** (`src/components/SmartGalleryClient.tsx`): tab
  filter, empty-list placeholder and image labels.
- **Quotation editor** (`src/components/admin/QuotationManager.tsx`): line-item
  list operations and subtotal, VAT and total.
- **Dashboard** (`src/components/AdminDashboard.tsx`): the `HH:MM:SS` uptime
  clock and the gallery statistics total.
- **Contact route** (`src/app/api/contact/route.ts`): required-field
  validation, the LINE text, and the e-mail subject and body.

Clock readings, fresh ids, network outcomes and the JSON parser are parameters
throughout.

How the code is laid out:

- One module per source file.
- Three helper modules:
  - `Text`: decimal rendering, padding, trimming, lower-casing and substring
    search.
  - `Seqs`: filter, deduplication, first index and count.
  - `Wrappers`: `Option`.
- Regular expressions are written as a hand-made leftmost, non-overlapping
  scanner (`Scanner.Scan`) over the token alphabet `[a-zA-Z0-9_-]`.
- State that the source changes step by step is held in classes:
  - the store, `GalleryDb.GalleryStore`;
  - the manager's component state, `GalleryManager.ManagerState`;
  - the quotation editor, `Quotation.QuotationEditor`;
  - the dashboard clock, `Dashboard.Dashboard`.
- Loops stay loops:
  - extraction into a set;
  - the assembly loop with its pauses;
  - the seeding loop;
  - the store listing.

## Model

| member | source | states |
|---|---|---|
| `Categories.FromLabel` | src/types/gallery.ts:6 | a string parses to a category exactly when it is one of the six labels of the union, and then that category's label is the string |
| `Categories.LabelRoundTrip` | src/types/gallery.ts:6 | every category's label parses back to the same category |
| `Categories.LabelInjective` | src/types/gallery.ts:6 | two categories have the same label only if they are the same category |
| `Scanner.Normalise` | src/actions/gallery.ts:53 | replacing each `\/` by `/` never makes the text longer |
| `Scanner.NormaliseFixpoint` | src/actions/gallery.ts:53 | normalising leaves a text unchanged if and only if it contains no `\/` |
| `Scanner.RunEnd` | src/actions/gallery.ts:58 | the greedy `[a-zA-Z0-9_-]+` run is all token characters and stops at the end of the text or at a non-token character |
| `Scanner.UrlTokenAt` | src/actions/gallery.ts:58-64 | a URL capture is the text between the `/pw/` prefix and the end of its run, and is non-empty |
| `Scanner.BareIdAt` | src/actions/gallery.ts:71 | a bare-id capture is `AF1Qip` followed by at least 20 token characters, enclosed in double quotes |
| `Scanner.MatchAt` | src/actions/gallery.ts:58-71 | a match found at a position ends after it, within the text, and its capture is well formed for its pattern |
| `Scanner.Scan` | src/actions/gallery.ts:58-71 | every capture that global matching yields is well formed for the pattern |
| `Scanner.ScanFindsMatch` | src/actions/gallery.ts:58-71 | if the pattern matches at any position from `i` on, scanning from `i` finds something |
| `Scanner.ScanFoundHasMatch` | src/actions/gallery.ts:58-71 | if scanning from `i` finds something, the pattern matches at some position from `i` on |
| `Scanner.ScanEmptyIff` | src/actions/gallery.ts:58-71 | `matchAll` yields nothing if and only if the pattern matches at no position |
| `Scanner.SecureUrlContainsProtocolRelative` | src/actions/gallery.ts:58-64 | an `https://` match of pattern A contains, six characters on, a pattern-B match with the same capture |
| `Scanner.PlainUrlContainsProtocolRelative` | src/actions/gallery.ts:58-64 | an `http://` match of pattern A contains, five characters on, a pattern-B match with the same capture |
| `Scanner.FullUrlContainsProtocolRelative` | src/actions/gallery.ts:58-64 | every pattern-A match has a pattern-B match with the same capture just after its scheme |
| `Scanner.ProtocolRelativeFindsWhenFullUrlDoes` | src/actions/gallery.ts:58-67 | whenever pattern A finds a URL, pattern B finds one too |
| `Scanner.MentionCountZeroIffNotFound` | src/app/api/admin/debug-gallery/route.ts:36-51 | the count of `lh3.googleusercontent` mentions is zero if and only if `indexOf` finds none |
| `Gallery.CollectCanonical` | src/actions/gallery.ts:55-76 | adding each canonical URL to a `Set` in a loop and spreading it yields the canonical URLs deduplicated in first-occurrence order |
| `Gallery.ExtractBaseUrls` | src/actions/gallery.ts:53-76 | the normalise-then-three-loops extraction computes exactly the specified base-URL list |
| `Gallery.CandidatesAreTokens` | src/actions/gallery.ts:58-74 | every capture the extraction uses is a non-empty string over `[a-zA-Z0-9_-]` |
| `Gallery.CanonicalShape` | src/actions/gallery.ts:59 | every canonical URL is the prefix plus a non-empty token, and every token's URL is among them |
| `Gallery.BaseUrlsCanonical` | src/actions/gallery.ts:55-76 | the extracted URLs are pairwise distinct, each is the prefix plus a token, and every captured token's URL is extracted |
| `Gallery.BaseUrlsFirstOccurrenceOrder` | src/actions/gallery.ts:55-76 | extracted URLs are ordered by where each first occurs among the captures |
| `Gallery.BaseUrlsEmptyIff` | src/actions/gallery.ts:63-81 | no URL is extracted, which triggers the fallback list, if and only if both pattern B and pattern C find nothing |
| `Gallery.FallbackOrder` | src/actions/gallery.ts:53-74 | the result is pattern A's URLs when A finds any; otherwise pattern B's when B finds any; otherwise pattern C's |
| `Gallery.DescriptionOr` | src/actions/gallery.ts:107 | the description is never empty: it is the classifier's text when non-empty, else `ผลงาน ` followed by the 1-based position |
| `Gallery.Runs` | src/actions/gallery.ts:100 | one classifier run per URL, each of whose waits obeys the backoff rule |
| `Gallery.Records` | src/actions/gallery.ts:91-124 | after `k` iterations there are exactly `k` records |
| `Gallery.Assemble` | src/actions/gallery.ts:91-124 | the assembly loop produces exactly the specified records and the specified sequence of requested waits |
| `Gallery.RecordAt` | src/actions/gallery.ts:93-108 | record `i` is built from URL `i` and classifier run `i`, whatever number of iterations past `i` |
| `Gallery.RecordsFollowUrls` | src/actions/gallery.ts:94-108 | record `i` has id `photo_i`, URL base + `=w800`, size 1200×800, the classified category, and the description or its fallback |
| `Gallery.RecordsIdsDistinct` | src/actions/gallery.ts:95-107 | record ids are pairwise distinct and every record has a non-empty description |
| `Gallery.PacingDelays` | src/actions/gallery.ts:120-123 | after `k` iterations there have been `k` 13000 ms pacing waits, or `k - 1` once the last photo is done |
| `Gallery.PacingDelaysAll` | src/actions/gallery.ts:120-123 | `n` photos incur exactly `n - 1` pacing waits of 13000 ms |
| `Gallery.MockData` | src/actions/gallery.ts:208-223 | the fallback list has twelve records |
| `Gallery.MockDataShape` | src/actions/gallery.ts:208-223 | fallback record `k` has id `k + 1` in decimal, size 1200×800 and a description |
| `Gallery.MockIdsInOrder` | src/actions/gallery.ts:210-221 | the fallback ids are "1" to "12" in order |
| `Gallery.MockIdsDistinct` | src/actions/gallery.ts:210-221 | the fallback ids are pairwise distinct |
| `Gallery.MockCategories` | src/actions/gallery.ts:210-221 | the fallback list uses exactly the five categories other than `Uncategorized` |
| `Gallery.FetchAndClassify` | src/actions/gallery.ts:31-131 | an unreachable album, a non-2xx status or no URLs gives the fallback list with no waits; otherwise the records and waits come from the first `min(found, 30)` URLs, so there are that many records |
| `Gallery.FetchAndClassifyPhotos` | src/actions/gallery.ts:18-29 | a missing or empty API key, or a failing album, gives the fallback list. Otherwise the result is the records built from the first `min(found, 30)` extracted URLs and their classifier runs. Either way it holds between 1 and 30 photos. |
| `Classifier.SpaceRun` | src/actions/gallery.ts:176 | `\s*` consumes the maximal run of whitespace at a position |
| `Classifier.OpeningFenceAsWritten` | src/actions/gallery.ts:176 | the as-written opening pattern `^```json?\s*`, when it matches, covers a prefix of the text |
| `Classifier.OpeningFence` | src/actions/gallery.ts:176 | the intended opening pattern, when it matches, covers a prefix of the text |
| `Classifier.JsonTextAsWritten` | src/actions/gallery.ts:173-176 | the text handed to `JSON.parse`, as written, is never longer than the reply and has no white space at either end |
| `Classifier.JsonText` | src/actions/gallery.ts:173-176 | the same two facts for the unwrapping with the intended opening pattern |
| `Classifier.StripOfFenced` | src/actions/gallery.ts:176 | removing the closing fence undoes appending one: any text followed by ```` ``` ```` comes back unchanged |
| `Classifier.BareFenceKeptAsWritten` | src/actions/gallery.ts:173-176 | as written, a reply fenced by a bare ```` ``` ```` keeps its opening fence in the text handed to `JSON.parse` |
| `Classifier.JsonFenceStrippedAsWritten` | src/actions/gallery.ts:173-176 | as written, a ```` ```json ```` fence is removed and the object is recovered |
| `Classifier.JsonTextRecoversObject` | src/actions/gallery.ts:173-176 | with the intended opening pattern `^```(json)?\s*` (`JsonText`, not the code as written), a bare object, a bare-fenced object and a json-fenced object all unwrap to the object itself |
| `Classifier.CoerceCategory` | src/actions/gallery.ts:179-190 | the category is the parsed one when that is one of the six labels, otherwise `Uncategorized` |
| `Classifier.Attempt` | src/actions/gallery.ts:141-195 | one attempt, unwrapping the reply as written: a failed call throws with its own status; an answer classifies if and only if `JSON.parse` accepts the unwrapped text, and otherwise throws with no status |
| `Classifier.AttemptIntended` | src/actions/gallery.ts:141-195 | the same for the intended unwrapping, which also strips a bare fence |
| `Classifier.ClassifyFrom` | src/actions/gallery.ts:196-202 | starting from attempt `a`, the image is fetched at most `5 - a` times; each fetch is of the same URL, and the waits are `(a + k) × 15000` ms |
| `Classifier.ClassifyImage` | src/actions/gallery.ts:137-206 | at most four calls, one wait fewer than calls, and the waits are a prefix of 15000, 30000 and 45000 ms |
| `Classifier.RetryUntilNotRateLimited` | src/actions/gallery.ts:196-204 | when attempts `a` to `k - 1` hit 429 and attempt `k` does not, or `k` is the fourth, there are exactly `k - a + 1` calls and attempt `k` decides the result |
| `Classifier.RateLimitedFourTimes` | src/actions/gallery.ts:196-204 | four 429s in a row give four calls, waits of 15000, 30000 and 45000 ms, and then `{Uncategorized, ""}` without throwing |
| `Classifier.AnswerNotRateLimited` | src/actions/gallery.ts:173-195 | a call that answers never counts as rate-limited, whatever the parse gives |
| `Classifier.RateLimitedTwiceThenSettled` | src/actions/gallery.ts:196-201 | two 429s and then any other outcome give three calls, waits of 15000 and 30000 ms, and the third attempt's result |
| `Classifier.OtherFailureNotRetried` | src/actions/gallery.ts:203-204 | a failure other than 429 is not retried and gives `{Uncategorized, ""}` |
| `Classifier.BareFenceUnparsedAsWritten` | src/actions/gallery.ts:176-177 | as written, a bare-fenced reply reaches `JSON.parse` still starting with a backquote, so it cannot parse and the attempt throws with no status |
| `Classifier.BareFenceParsed` | src/actions/gallery.ts:176-177 | with the intended opening pattern, a bare-fenced or json-fenced reply is classified exactly as the unfenced object would be |
| `Classifier.AsWrittenAgreesOffBareFence` | src/actions/gallery.ts:173-177 | the code as written and the intended unwrapping agree on a bare object, and as written a json-fenced reply is classified as the bare object |
| `GalleryDb.UpsertWrites` | src/actions/galleryDb.ts:21-34 | after an upsert the record for `id` exists with the given category and visibility. An omitted description keeps the old one (absent on create). |
| `GalleryDb.UpsertOthersUnchanged` | src/actions/galleryDb.ts:22 | an upsert adds at most the key `id`, and every other record is unchanged |
| `GalleryDb.UpsertIdempotent` | src/actions/galleryDb.ts:21-34 | saving the same data twice leaves the store as saving it once |
| `GalleryDb.UpsertKeepsKeyed` | src/actions/galleryDb.ts:21-34 | an upsert keeps every record stored under its own id |
| `GalleryDb.ToggleOnlyVisibility` | src/actions/galleryDb.ts:45-48 | a toggle changes only `isHidden` of record `id`; keys, that record's other fields and all other records are unchanged |
| `GalleryDb.ToggleBackRestores` | src/actions/galleryDb.ts:45-48 | toggling back to the previous visibility restores the store exactly |
| `GalleryDb.GalleryStore.GetSavedPhotos` | src/actions/galleryDb.ts:5-12 | on error the result is []; otherwise it lists every stored record exactly once with distinct ids |
| `GalleryDb.GalleryStore.Upsert` | src/actions/galleryDb.ts:21-34 | the store becomes the upserted map and the returned row is the stored record for `id` |
| `GalleryDb.GalleryStore.SavePhotoMetadata` | src/actions/galleryDb.ts:14-41 | on success the store is upserted and the result carries the saved record; on failure the store is unchanged and the result is the error |
| `GalleryDb.GalleryStore.TogglePhotoVisibility` | src/actions/galleryDb.ts:43-54 | a missing id or a failure leaves the store unchanged and returns the error; otherwise only that record's visibility changes and the result carries it |
| `SeedGallery.CuratedPhotos` | src/app/api/seed-gallery/route.ts:4-35 | the curated table has 30 entries |
| `SeedGallery.CuratedKeysWellFormed` | src/app/api/seed-gallery/route.ts:4-35 | every curated key is 10 characters long and starts with `AP1Gcz`, and the keys are pairwise distinct |
| `SeedGallery.CuratedCategoriesAreLabels` | src/app/api/seed-gallery/route.ts:4-35 | every curated `cat` is a label of the category enumeration |
| `SeedGallery.SeedRowsWrites` | src/app/api/seed-gallery/route.ts:47-61 | after seeding a table with distinct keys, every entry's key holds exactly its `cat`/`desc`, visible |
| `SeedGallery.SeedRowsKeys` | src/app/api/seed-gallery/route.ts:47-61 | after seeding, the stored keys are the old keys plus the table's keys |
| `SeedGallery.SeedRowsOthers` | src/app/api/seed-gallery/route.ts:47-61 | records whose ids the table does not list are untouched |
| `SeedGallery.SeedRowsEffect` | src/app/api/seed-gallery/route.ts:47-61 | the three facts above, for any table with distinct keys |
| `SeedGallery.SeedIdempotent` | src/app/api/seed-gallery/route.ts:47-61 | seeding a table with distinct keys twice gives the same store as seeding it once |
| `SeedGallery.SeedWritesCurated` | src/app/api/seed-gallery/route.ts:47-61 | after seeding, every curated id maps to its `cat`/`desc` with `isHidden` false, and other ids are untouched |
| `SeedGallery.SeedCuratedIdempotent` | src/app/api/seed-gallery/route.ts:47-61 | seeding the curated table twice gives the same store as seeding it once |
| `SeedGallery.UpsertAll` | src/app/api/seed-gallery/route.ts:44-63 | the loop upserts every entry in order and counts them; a failure at entry `f` stops it with exactly the first `f` entries written |
| `SeedGallery.Post` | src/app/api/seed-gallery/route.ts:37-74 | in production: 403 and no writes. Otherwise the curated table is seeded and the reply says 30 seeded, 0 skipped, total 30. A failure part-way answers 500 with the writes made so far. |
| `SeedGallery.SeedMessageText` | src/app/api/seed-gallery/route.ts:67 | the success message reads "Seeded 30 photos, skipped 0" |
| `SeedGallery.Get` | src/app/api/seed-gallery/route.ts:76-84 | reports the number of records, the number with `isHidden` false and the number with `isHidden` true; an error gives 500 |
| `SeedGallery.HiddenIsTheRest` | src/app/api/seed-gallery/route.ts:78-80 | the hidden count equals total minus visible |
| `GalleryManager.IndexById` | src/components/admin/GalleryManager.tsx:45 | the map holds exactly the ids of the saved list |
| `GalleryManager.IndexByIdLaterWins` | src/components/admin/GalleryManager.tsx:45 | when ids repeat, the last record with that id is the one in the map |
| `GalleryManager.IndexOfListing` | src/components/admin/GalleryManager.tsx:44-45 | the map built from a full store listing is the store itself |
| `GalleryManager.Merge` | src/components/admin/GalleryManager.tsx:48-66 | the merged list is as long as the raw list |
| `GalleryManager.MergeShape` | src/components/admin/GalleryManager.tsx:48-66 | photo `i` keeps raw photo `i`'s id and URL. A saved record supplies its category, visibility and description (or ""), with isSaved true. Otherwise the photo is `Uncategorized`, "", hidden and unsaved. |
| `GalleryManager.SetHidden` | src/components/admin/GalleryManager.tsx:80 | the optimistic update keeps the list's length |
| `GalleryManager.ApplyEdit` | src/components/admin/GalleryManager.tsx:106-112 | the edit keeps the list's length |
| `GalleryManager.RevertRestores` | src/components/admin/GalleryManager.tsx:80-85 | flipping visibility and then reverting leaves the list as it started |
| `GalleryManager.ToggleMatchesReload` | src/components/admin/GalleryManager.tsx:80-82 | the optimistic list equals what a reload after a successful toggle would show |
| `GalleryManager.EditMatchesReload` | src/components/admin/GalleryManager.tsx:98-112 | the edited list equals what a reload after a successful save would show |
| `GalleryManager.FilteredPhotosSpec` | src/components/admin/GalleryManager.tsx:122-126 | the filter keeps a photo if and only if its category matches ("all" matches any) and its lower-cased description contains the lower-cased search text (an empty search matches any). Order is kept, and each kept photo appears as many times as in the input. |
| `GalleryManager.NoFilterKeepsAll` | src/components/admin/GalleryManager.tsx:122-126 | with "all" and an empty search every photo is kept |
| `GalleryManager.DisplayCap` | src/components/admin/GalleryManager.tsx:208-285 | at most the first 48 filtered photos are shown; the "load more" notice appears if and only if some filtered photo is not shown |
| `GalleryManager.ManagerState.constructor` | src/components/admin/GalleryManager.tsx:19-27 | the initial component state: no photos, loading, nothing saving, no editor, default form |
| `GalleryManager.ManagerState.LoadPhotos` | src/components/admin/GalleryManager.tsx:37-74 | loading ends; the photos become the merge of the raw list with the store (with no metadata when listing fails), or stay as they were when the raw fetch fails |
| `GalleryManager.ManagerState.ToggleVisibility` | src/components/admin/GalleryManager.tsx:76-91 | on success the list and the store both have the photo's visibility flipped. On failure the list is flipped and reverted, and the store is unchanged. Nothing stays marked as saving. |
| `GalleryManager.ManagerState.OpenEditor` | src/components/admin/GalleryManager.tsx:222-228 | the editor opens on the photo with its category (or `Uncategorized`), description and visibility |
| `GalleryManager.ManagerState.SaveEdit` | src/components/admin/GalleryManager.tsx:93-120 | with no open editor or on failure, the list and store are unchanged. On success the store is upserted, only the edited photo changes, and the editor closes. |
| `DebugGallery.Diagnose` | src/app/api/admin/debug-gallery/route.ts:28-53 | the report carries the fetch's status and final URL and the raw length. Each sample holds `min(count, 3)` tokens. The excerpt is a prefix of the raw text of at most 600 characters, exactly 600 when the text is that long. |
| `DebugGallery.Handle` | src/app/api/admin/debug-gallery/route.ts:10-56 | 401 if and only if the token is missing, empty or rejected; 500 if and only if the token passes and the fetch throws; otherwise the diagnostic report of the fetched page |
| `DebugGallery.GetAsWritten` | src/app/api/admin/debug-gallery/route.ts:13-16 | as written: 401 exactly when cookie `admin-session` is missing, empty or rejected, 500 exactly when it passes and the fetch throws, otherwise the report |
| `DebugGallery.Get` | src/app/api/admin/debug-gallery/route.ts:13-16 | the same with the cookie the login sets, `admin_session` |
| `DebugGallery.UnauthorizedWithoutFetch` | src/app/api/admin/debug-gallery/route.ts:12-16 | a missing, empty or rejected token gives 401 whatever the album would hold |
| `DebugGallery.LoggedInRefusedAsWritten` | src/app/api/admin/debug-gallery/route.ts:13 | as written, a browser holding only the login cookie is refused whatever its token |
| `DebugGallery.LoggedInServed` | src/app/api/admin/debug-gallery/route.ts:12-53 | reading the cookie the login sets, a valid token gets the diagnostic report |
| `DebugGallery.CountsAndSamples` | src/app/api/admin/debug-gallery/route.ts:31-47 | each pattern count is the number of distinct captures, zero iff nothing matches. A sample is the first three at most, in first-occurrence order. |
| `DebugGallery.PatternsIndependent` | src/app/api/admin/debug-gallery/route.ts:31-32 | the patterns run independently: a nonzero pattern-A count implies a nonzero pattern-B count |
| `DebugGallery.LengthIsRaw` | src/app/api/admin/debug-gallery/route.ts:41 | the reported length is that of the raw text, which is at least the normalised length |
| `DebugGallery.MentionsIffContext` | src/app/api/admin/debug-gallery/route.ts:36-52 | the mention count is zero if and only if the excerpt is "NOT FOUND" |
| `DebugGallery.ContextBounds` | src/app/api/admin/debug-gallery/route.ts:49-52 | the excerpt is at most 250 characters and contains the first mention, at offset `min(idx, 50)` |
| `SmartGallery.Filtered` | src/components/SmartGalleryClient.tsx:24-27 | with "all" the photos come back unchanged. Otherwise the result keeps order and holds exactly the photos whose category label equals the tab, each as many times as in the input. |
| `SmartGallery.LabelTabSelectsCategory` | src/components/SmartGalleryClient.tsx:27 | a tab holding a category's label selects exactly that category's photos |
| `SmartGallery.LabelTabKeeps` | src/components/SmartGalleryClient.tsx:27 | a photo whose label is the tab is shown, so the result is not empty |
| `SmartGallery.TabsAsWrittenShowNothing` | src/components/SmartGalleryClient.tsx:9-14 | as written, each of the three category tabs shows nothing for any photo list |
| `SmartGallery.TabsShowMockPhotos` | src/components/SmartGalleryClient.tsx:9-14 | with the tab values set to the enumeration's labels for those categories (`CCTV & Security`, `Network & Fiber`, `Software & AI`), each category tab shows some of the fallback photos |
| `SmartGallery.MockShowsCategory` | src/components/SmartGalleryClient.tsx:27 | a category present in the fallback list yields a non-empty tab |
| `SmartGallery.Render` | src/components/SmartGalleryClient.tsx:24-39 | the placeholder is shown if and only if there are no photos, whatever tab is active; otherwise the grid holds only photos of the input, never more of them |
| `SmartGallery.AltTextSpec` | src/components/SmartGalleryClient.tsx:80 | the alt text is never empty: the description when non-empty, otherwise the category label |
| `Quotation.SubtotalAppend` | src/components/admin/QuotationManager.tsx:64 | the subtotal of two lists joined is the sum of their subtotals |
| `Quotation.Subtotal` | src/components/admin/QuotationManager.tsx:64 | with no negative quantity or price the subtotal is not negative |
| `Quotation.SubtotalFromFront` | src/components/admin/QuotationManager.tsx:64 | the sum equals the first row's total plus the subtotal of the rest, so the order of summing does not matter |
| `Quotation.Total` | src/components/admin/QuotationManager.tsx:64-66 | total = subtotal × (1 + vat/100). At 0 % the VAT line is hidden and total equals subtotal. A non-negative rate never lowers the total. |
| `Quotation.DefaultData` | src/components/admin/QuotationManager.tsx:36-48 | the initial quotation has one empty item, subtotal 0, VAT 7 %, the given number and dates and empty client fields |
| `Quotation.FieldUpdateKeepsItems` | src/components/admin/QuotationManager.tsx:68-69 | a field update leaves the items and subtotal unchanged; a text field leaves the total too; a VAT update changes only the rate |
| `Quotation.ItemsUpdated` | src/components/admin/QuotationManager.tsx:71-75 | an item update keeps the list's length |
| `Quotation.ItemsUpdatedSpec` | src/components/admin/QuotationManager.tsx:71-75 | every item keeps its id and position. Only items with the matching id change, and only in the named field. |
| `Quotation.TextEditKeepsSubtotal` | src/components/admin/QuotationManager.tsx:71-75 | editing a description or unit does not change the subtotal |
| `Quotation.AddKeepsSubtotal` | src/components/admin/QuotationManager.tsx:77 | adding appends exactly one item after the unchanged list, and the subtotal is unchanged because the new item costs 0 |
| `Quotation.AddKeepsIdsDistinct` | src/components/admin/QuotationManager.tsx:77 | adding an item with a fresh id keeps the ids distinct |
| `Quotation.RemoveSpec` | src/components/admin/QuotationManager.tsx:79-80 | removal keeps exactly the items with other ids, each as many times as before, in their order |
| `Quotation.RemoveSubtotal` | src/components/admin/QuotationManager.tsx:79-80 | the old subtotal is the new subtotal plus the removed items' subtotal |
| `Quotation.RemoveEnabledKeepsARow` | src/components/admin/QuotationManager.tsx:190 | while the button is enabled (more than one item, distinct ids), removing leaves at least one item |
| `Quotation.QuotationEditor.constructor` | src/components/admin/QuotationManager.tsx:61 | the editor starts on the default quotation |
| `Quotation.QuotationEditor.Reset` | src/components/admin/QuotationManager.tsx:96 | reset restores the defaults with a new quotation number |
| `Quotation.QuotationEditor.UpdateField` | src/components/admin/QuotationManager.tsx:68-69 | the data becomes the field-updated data |
| `Quotation.QuotationEditor.UpdateItem` | src/components/admin/QuotationManager.tsx:71-75 | only the items change, as the item update specifies |
| `Quotation.QuotationEditor.AddItem` | src/components/admin/QuotationManager.tsx:77 | only the items change, by one appended empty item |
| `Quotation.QuotationEditor.RemoveItem` | src/components/admin/QuotationManager.tsx:79-80 | only the items change, losing those with the id |
| `Dashboard.JsRem` | src/components/AdminDashboard.tsx:69-70 | JavaScript `%`: `a` is the divisor times the quotient rounded toward zero plus the remainder. For a non-negative `a` it is the usual remainder below the divisor; for a negative one it is in `(-b, 0]`. |
| `Dashboard.ElapsedSpec` | src/components/AdminDashboard.tsx:67 | elapsed seconds are ⌊(now − start)/1000⌋, non-negative when the clock has not gone back |
| `Dashboard.PartsRoundTrip` | src/components/AdminDashboard.tsx:68-70 | minutes and seconds are below 60, hours non-negative, and h×3600 + m×60 + s = elapsed |
| `Dashboard.Pad2Spec` | src/components/AdminDashboard.tsx:68-70 | each part is at least two digits and reads back as its value. It is exactly two digits iff below 100, and never shorter than the plain number, so nothing is truncated. |
| `Dashboard.ClockLayout` | src/components/AdminDashboard.tsx:71 | the text is hours, colon, two minute digits, colon, two second digits |
| `Dashboard.PartsReadBack` | src/components/AdminDashboard.tsx:68-71 | the padded parts joined by colons read back as h×3600 + m×60 + s |
| `Dashboard.UptimeText` | src/components/AdminDashboard.tsx:67-71 | for a non-negative count, the uptime text reads back as the elapsed seconds |
| `Dashboard.InitialUptime` | src/components/AdminDashboard.tsx:47 | zero seconds read "00:00:00", the initial value |
| `Dashboard.Dashboard.constructor` | src/components/AdminDashboard.tsx:46-52 | the clock starts empty, the uptime at "00:00:00" and the start time is recorded |
| `Dashboard.Dashboard.Tick` | src/components/AdminDashboard.tsx:54-72 | each tick shows the given local time and the uptime text of the seconds since start |
| `Dashboard.GalleryStats` | src/components/AdminDashboard.tsx:36-40 | three statistics, each with count 0 |
| `Dashboard.StatsTotalAppend` | src/components/AdminDashboard.tsx:238 | the total of two lists joined is the sum of their totals |
| `Dashboard.StatsTotalBounds` | src/components/AdminDashboard.tsx:238 | with non-negative counts every count is at most the total, and the total is 0 iff every count is 0 |
| `Dashboard.ShippedTotalIsZero` | src/components/AdminDashboard.tsx:238 | the shipped statistics total 0 |
| `Contact.OrDash` | src/app/api/contact/route.ts:79 | an absent or empty optional field is shown as "-", a present one as itself |
| `Contact.Recipient` | src/app/api/contact/route.ts:6 | the recipient address is never empty: the configured address when set and non-empty, otherwise the built-in default |
| `Contact.BadJsonIsServerError` | src/app/api/contact/route.ts:90-95 | a body that does not parse gives 500 with the error text and no notification |
| `Contact.IncompleteIsRejected` | src/app/api/contact/route.ts:66-71 | a missing or empty name, phone or service gives 400 and no notification |
| `Contact.Post` | src/app/api/contact/route.ts:56-96 | the answer is 200 if and only if the body parses and all three required fields are filled. Any other answer is 400 or 500 and sends nothing. At most two requests go out. |
| `Contact.AcceptedAnswer` | src/app/api/contact/route.ts:73-89 | an accepted submission gets 200 with the success message, and the LINE text and e-mail built from it are sent |
| `Contact.AcceptedNotifications` | src/app/api/contact/route.ts:8-54 | the LINE notice goes out iff a token is set, the e-mail iff a key is set; the e-mail has the fixed sender, the recipient, the `[Lead]` subject and the HTML body |
| `Contact.AbsentShownAsDash` | src/app/api/contact/route.ts:34-79 | an absent LINE id or message appears as "-" in both the LINE text and the e-mail body |
| `Contact.LineMessageCongruence` | src/app/api/contact/route.ts:79 | the LINE text depends only on name, phone, service and the dashed LINE id and message |
| `Contact.EmailHtmlCongruence` | src/app/api/contact/route.ts:29-39 | the e-mail body depends only on name, phone, service and the dashed LINE id and message |
| `Contact.SubjectSpec` | src/app/api/contact/route.ts:50 | the subject is `[Lead] `, the name, ` – `, the service, in that order and nothing else |

## Left out

- Caching by `unstable_cache` and `revalidateTag` (gallery.ts:12-16, revalidate-gallery) is library behaviour. The model computes every call afresh, so it says nothing about a cached fallback list.
- Network and foreign calls are inputs rather than calls:
  - the album fetch is an `AlbumResponse`;
  - the image-byte fetch, base64 encoding and the vision model are one `CallOutcome` per attempt;
  - the LINE and Resend calls are recorded as notification requests. Whether they fail is not modelled, because `Promise.allSettled` results are discarded;
  - Prisma is a map inside `GalleryDb.GalleryStore`, with a `fault` flag standing for any thrown error.
- `JSON.parse` is an injected parser returning an optional record of two optional strings. A property that is not a string is `None`.
- Waits (`sleep`, `setTimeout`) are recorded as a sequence of requested durations.
- The clock, `toLocaleString` and `Math.random` ids are parameters:
  - the contact timestamps, dashboard time, quotation number and dates are strings;
  - the dashboard's start and now are integers in milliseconds;
  - fresh line-item ids are given by the caller.
- Money is modelled as mathematical reals, not IEEE doubles. `formatNumber` and `formatThaiDate` (locale formatting) are not modelled.
- The per-photo `catch` at gallery.ts:109-118 is not modelled. `classifyImageWithGemini` catches every error itself, so that branch cannot be reached.
- `getAllRawPhotos` is not defined in the gallery actions. The raw photo list is an input of `GalleryManager.ManagerState.LoadPhotos` (`None` when fetching it throws).
- Lower-casing in the admin search is ASCII-only. `toLowerCase` on other scripts is not modelled.
- Concurrency is not modelled: async interleaving, React's batching of state updates, and the parallel `Promise.allSettled`. Handlers run to completion one at a time.
- `GalleryDb.GalleryStore.GetSavedPhotos` does not fix the order of the listing, because Prisma's `findMany` without `orderBy` promises none.
- The following are not modelled:
  - the contact route's `headers()`/IP lookup (route.ts:59-61), which is unused;
  - console logging throughout.
- The dashboard's tab switch, logout and gallery-refresh handlers are not modelled. They only navigate or call other routes.
- The gallery manager's `savingId` spinner is modelled but not rendered. The lightbox in the public gallery is not modelled. Other markup is not modelled.
- Authentication (`verifySession`, JWT, bcrypt) is an injected predicate on the token. The login route and the revalidate route are not part of this model.
- `DebugGallery.Diagnose` counts lengths in code points, not UTF-16 code units. `htmlLengthChars` (route.ts:41), `slice(0, 600)` (route.ts:48) and the excerpt offsets (route.ts:51) differ from JavaScript's on text with characters outside the Basic Multilingual Plane.
- `Contact.Post` takes each field as an optional string. A JSON body whose fields are numbers, booleans or objects is not modelled. For example, `{"name":1,"phone":2,"service":3}` is truthy and answered 200 by the route. A `null` body, which throws on destructuring and is answered 500, is the same as a body that does not parse.
- `Gallery.MockDataShape` does not state the twelve description texts themselves. It states only that each record has one.

## Findings

| source | as written | input that shows it | evidently intended | confidence | as-written member | corrected member |
|---|---|---|---|---|---|---|
| src/actions/gallery.ts:176 | `^```json?\s*` needs the letters `jso` after the backquotes, so a bare ```` ``` ```` fence is never removed | the reply ```` ```\n{"category":"On-site Work","description":"x"}\n``` ```` reaches `JSON.parse` as ```` ```\n{…} ````, which throws. The attempt ends without a status and is not retried, so the classifier returns `Uncategorized` with an empty description and the record falls back to `ผลงาน N` (N the 1-based position) | strip an opening fence with or without the `json` tag (`^```(json)?\s*`) | not executed; high | `Classifier.BareFenceUnparsedAsWritten` | `Classifier.BareFenceParsed` |
| src/components/SmartGalleryClient.tsx:9-14 | the category tabs filter on `CCTV/Security`, `Network/Infrastructure` and `Software/Development`, none of which is a category label | any photo list, such as the fallback list, under the "CCTV & Security" tab gives an empty grid | tab values equal to the enumeration's labels for those categories: `CCTV & Security`, `Network & Fiber`, `Software & AI` (the displayed labels for the last two are `Network & Infra` and `Software & Dev`) | not executed; high | `SmartGallery.TabsAsWrittenShowNothing` | `SmartGallery.TabsShowMockPhotos` |
| src/app/api/admin/debug-gallery/route.ts:13 | the route reads the session from cookie `admin-session`, but login stores it under `admin_session` (src/lib/auth.ts:14) | a browser that has just logged in, holding only `admin_session=<valid token>`, gets 401 | read the cookie the login sets, `admin_session` | not executed; high | `DebugGallery.LoggedInRefusedAsWritten` | `DebugGallery.LoggedInServed` |

The retry rule (`Classifier.ClassifyImage`) runs on `Classifier.Attempt`, which unwraps the reply as the code is written. `Classifier.AttemptIntended` is the corrected attempt, and `Classifier.BareFenceParsed` is proved about it.

# Accountability chart maker: builder, detail view and dashboard logic

A Dafny model of the pure logic inside the three pages of a small browser
application for EOS accountability charts. A chart has a title, a
description and an ordered list of positions. Each position has a title, a
name, responsibilities and KPIs. The model covers:

- **Chart builder** (`ChartBuilder` module). The in-memory draft of
  positions, edited by `addPosition`, `updatePosition` and `removePosition`.
  Then the validation and payload construction of `saveChart`: a blank
  title is rejected; the title and description are trimmed; positions
  whose trimmed title and trimmed name are both empty are dropped.
- **Chart detail view** (`ChartView` module). The loading / not-found /
  found state driven by the single fetch. The export file name: every
  whitespace run of the title becomes `_`, then `_chart.json` is appended.
  The `'Untitled Position'` fallback for position headings.
- **Dashboard** (`Dashboard` module). The fetch the page issues when the
  session changes and how its answer updates the list. The local list update
  after a delete. The choice between the welcome, loading, "No charts yet"
  and grid views.

Shared pieces: `Seqs` holds order-preserving `Filter` (the pages'
`Array.prototype.filter`) and the subsequence relation. `Text` holds
ECMAScript whitespace, `trim`, and the `/\s+/g` → `_` rewrite. `Records`
holds the position and chart records and the outcome types.

Everything is pure functions over immutable values. Each datastore call is
replaced by a parameter: the outcome it resolved to (`FetchOutcome`,
`InsertOutcome`, `DeleteOutcome`). The browser's `confirm` answer is a
boolean parameter. The signed-in user is an `Option<UserId>`.

Behaviour of the code that the model keeps as written:
- The detail fetch uses `.single()`, which reports a missing row as an
  error. So a missing chart and a transport failure both end in "Chart not
  found"; the page cannot tell them apart.
- Remote failures are not always surfaced to the user. A failed dashboard
  fetch is only logged and the list keeps its previous value. So a failed
  first fetch shows the empty "No charts yet" state
  (`Dashboard.FailedFirstFetchLooksEmpty`). A failed re-fetch, after the
  `user` object changes while the page stays mounted, still shows the old
  grid (`Dashboard.SecondSignInShowsPreviousList`).
- The dashboard's `loading` flag starts true and nothing sets it back to
  true (`Dashboard.LoadingNeverReturns`). A later sign-in while the page
  stays mounted therefore never shows "Loading...": it shows the previous
  list, or "No charts yet" after a sign-out on first render
  (`Dashboard.SignInAfterSignOutSkipsLoading`), until the fetch answers.
- A new position's id is one more than the largest id in the list. After
  the last position is removed, the next one added can get the removed id
  again (`ChartBuilder.AddAfterRemovingLast`, `ChartBuilder.IdReuseExample`).
  Ids stay unique within the list, which is all the list editing needs.
- When the detail page re-fetches for a new route id, neither state
  variable is reset. A failed re-fetch keeps showing the previous chart
  (`ChartView.FailedRefetchKeepsPreviousChart`).
- `saveChart` reads `user.id` inside its `try`. With no signed-in user this
  throws, and the page reports the same failure as a datastore error
  (`SaveFailed`). The same happens when the insert returns no rows, because
  `data[0].id` throws.

## Model

| member | source | states |
|---|---|---|
| `Seqs.Filter` | src/pages/ChartBuilder.jsx:39 | The result is no longer than the input, holds only accepted elements, and contains every accepted element of the input. |
| `Seqs.FilterIsSubsequence` | src/pages/ChartBuilder.jsx:39 | The filter result is a subsequence of the input: elements are deleted, never reordered. |
| `Seqs.FilterMultiplicity` | src/pages/ChartBuilder.jsx:39 | Each accepted value occurs in the result exactly as often as in the input, and nothing else is added. |
| `Seqs.FilterIdempotent` | src/pages/ChartBuilder.jsx:57 | Filtering twice with the same test gives the same result as filtering once. |
| `Seqs.FilterConcat` | src/pages/ChartBuilder.jsx:57 | Filtering a concatenation is the concatenation of the filtered parts. |
| `Seqs.FilterDropsOne` | src/pages/ChartBuilder.jsx:39 | If exactly one element is rejected, the filter result is the input with that one element deleted. |
| `Text.IsWhitespace` | src/pages/ChartView.jsx:38 | The characters `\s` matches and `trim` removes. Within ASCII they are exactly TAB through CR and the space. The replacement `_` is not one of them. |
| `Text.Trim` | src/pages/ChartBuilder.jsx:44 | `trim` returns the contiguous slice that remains after removing the maximal leading and trailing whitespace. The result is empty exactly when the string is all whitespace. |
| `Text.TrimKeepsNonWhitespace` | src/pages/ChartBuilder.jsx:44 | Trimming removes only whitespace: the non-whitespace characters of the result are those of the input, in order. |
| `Text.TrimIdempotent` | src/pages/ChartBuilder.jsx:55 | Trimming an already trimmed string changes nothing. |
| `Text.ReplaceWhitespaceRuns` | src/pages/ChartView.jsx:38 | The `/\s+/g` → `_` rewrite leaves no whitespace in its output. |
| `Text.ReplaceRunsMatchesScan` | src/pages/ChartView.jsx:38 | The rewrite equals a character-by-character scan: non-whitespace characters are copied, the first character of each whitespace run becomes `_`, and the rest of the run is dropped. So each maximal run becomes exactly one `_`. |
| `Text.ReplaceRunsKeepsNonWhitespace` | src/pages/ChartView.jsx:38 | The title's non-whitespace characters appear in the output unchanged and in order. |
| `Text.ReplaceRunsIdentity` | src/pages/ChartView.jsx:38 | A string without whitespace is left unchanged. |
| `Text.ReplaceRunsPlainPrefix` | src/pages/ChartView.jsx:38 | A whitespace-free prefix of the title is copied verbatim, and the rest is rewritten independently. |
| `Text.ReplaceRunsIdempotent` | src/pages/ChartView.jsx:38 | Rewriting a second time changes nothing. |
| `Records.Position.With` | src/pages/ChartBuilder.jsx:33 | `{ ...pos, [field]: value }` keeps the id, gives the chosen field the new value and leaves the other three fields unchanged. |
| `Records.BlankPosition` | src/pages/ChartBuilder.jsx:23-27 | A new position has the given id and all four text fields empty. |
| `ChartBuilder.InitialPositions` | src/pages/ChartBuilder.jsx:15-17 | The builder starts with one position, id 1, all four text fields empty. |
| `ChartBuilder.MaxId` | src/pages/ChartBuilder.jsx:21 | `Math.max(...ids, 0)` is non-negative and at least every id. It is 0 or one of the ids. |
| `ChartBuilder.AddPosition` | src/pages/ChartBuilder.jsx:20-29 | Appends exactly one position. Existing positions keep their values and order. The new position is blank. Its id is `MaxId` plus one, so at least 1 and greater than every existing id. |
| `ChartBuilder.MaxIdIsLast` | src/pages/ChartBuilder.jsx:21 | On a valid list the largest id is the last position's id. |
| `ChartBuilder.AddAfterRemovingLast` | src/pages/ChartBuilder.jsx:20-41 | Removing the last position and then adding one keeps the other positions. The new id is one more than the new last id, and at most the removed id, so ids can be reused. |
| `ChartBuilder.IdReuseExample` | src/pages/ChartBuilder.jsx:20-41 | With ids 1 and 2, removing 2 and adding again gives back ids 1 and 2. |
| `ChartBuilder.UpdatePosition` | src/pages/ChartBuilder.jsx:31-35 | Length and ids are preserved. On positions with the given id the chosen field takes the value and the other fields are unchanged. Positions with other ids are unchanged. |
| `ChartBuilder.UpdateExactlyOne` | src/pages/ChartBuilder.jsx:31-35 | With increasing ids, updating the id at index `i` rewrites exactly that one position and leaves the rest of the list as it was. |
| `ChartBuilder.UpdateContractDetermines` | src/pages/ChartBuilder.jsx:31-35 | Any list meeting `UpdatePosition`'s contract is the updated list: the contract pins the result. |
| `ChartBuilder.UpdateAbsentId` | src/pages/ChartBuilder.jsx:32-34 | Updating an id that no position carries leaves the list unchanged. |
| `ChartBuilder.RemovePosition` | src/pages/ChartBuilder.jsx:37-41 | With one position or fewer, the list is unchanged. Otherwise no position with that id remains, every other position is kept as often as it occurred, and the order is kept. |
| `ChartBuilder.RemoveExactlyOne` | src/pages/ChartBuilder.jsx:39 | With increasing ids and at least two positions, removing the id at index `i` deletes exactly that position. |
| `ChartBuilder.RemoveAbsentId` | src/pages/ChartBuilder.jsx:39 | Removing an id that no position carries leaves the list unchanged. |
| `ChartBuilder.FilterKeepsIdsIncreasing` | src/pages/ChartBuilder.jsx:39 | Any filter keeps strictly increasing ids increasing. |
| `ChartBuilder.InitialPositionsValid` | src/pages/ChartBuilder.jsx:15-17 | The initial list (one blank position, id 1) is non-empty, with positive, strictly increasing ids. |
| `ChartBuilder.AddPreservesValid` | src/pages/ChartBuilder.jsx:20-29 | Adding keeps the list non-empty, with positive, strictly increasing ids. |
| `ChartBuilder.UpdatePreservesValid` | src/pages/ChartBuilder.jsx:31-35 | Editing a field keeps the list invariant. |
| `ChartBuilder.RemovePreservesValid` | src/pages/ChartBuilder.jsx:37-41 | Removing keeps the invariant. In particular the list never becomes empty. |
| `ChartBuilder.EditPreservesValid` | src/pages/ChartBuilder.jsx:20-41 | Any single add, update or remove keeps the invariant. |
| `ChartBuilder.EditsPreserveValid` | src/pages/ChartBuilder.jsx:20-41 | Any sequence of edits keeps the invariant. |
| `ChartBuilder.ReachableListsValid` | src/pages/ChartBuilder.jsx:15-41 | Every list reachable from the initial one is non-empty, with unique, increasing, positive ids. |
| `ChartBuilder.HasContentIffNotBlank` | src/pages/ChartBuilder.jsx:57 | A position passes the filter exactly when its title or its name holds a character other than whitespace. |
| `ChartBuilder.KeptPositions` | src/pages/ChartBuilder.jsx:57 | The persisted positions are exactly the draft positions with a non-blank trimmed title or name, each as often as it occurs in the draft. They are unmodified and keep their original order. |
| `ChartBuilder.BuildPayload` | src/pages/ChartBuilder.jsx:44-57 | A title that trims to empty is rejected as `TitleRequired` and produces no payload. Without a user the save fails. Otherwise the payload holds the user's id, the trimmed title and description, and the kept positions. |
| `ChartBuilder.SaveChart` | src/pages/ChartBuilder.jsx:43-66 | A blank title is rejected before any request. The save succeeds only when a payload was built and the insert returned at least one row; the page then navigates to the first row's id. Otherwise the save fails. |
| `ChartBuilder.BlankTitleRejected` | src/pages/ChartBuilder.jsx:44-47 | A whitespace-only title gives `TitleRequired` from both validation and save. |
| `ChartBuilder.InitialDraftNeedsTitle` | src/pages/ChartBuilder.jsx:13-17 | The draft as first rendered has an empty title, so saving it is rejected as `TitleRequired` for every user and datastore answer. |
| `ChartBuilder.PayloadTitleTrimmed` | src/pages/ChartBuilder.jsx:55 | A saved title is non-empty and neither starts nor ends with whitespace. |
| `ChartBuilder.BlankPositionDropped` | src/pages/ChartBuilder.jsx:57 | A position whose title and name are both blank never appears in the payload. |
| `ChartBuilder.KeptPositionsIdempotent` | src/pages/ChartBuilder.jsx:57 | Applying the position filter twice gives the same result as once. |
| `ChartBuilder.KeptPositionsAllContent` | src/pages/ChartBuilder.jsx:57 | If every position has a title or name, all are persisted unchanged. |
| `ChartBuilder.KeptPositionsIdsIncreasing` | src/pages/ChartBuilder.jsx:57 | The persisted positions still have strictly increasing, so unique, ids. |
| `ChartBuilder.InitialListKeepsNothing` | src/pages/ChartBuilder.jsx:57 | The untouched initial position is blank, so none of it is persisted. |
| `ChartBuilder.OrgChartExample` | src/pages/ChartBuilder.jsx:53-57 | "Org Chart" with the one position CEO / Ann is saved with exactly that position. |
| `ChartView.InitialDetail` | src/pages/ChartView.jsx:12-13 | The page starts loading, with no chart held. |
| `ChartView.ResolveFetch` | src/pages/ChartView.jsx:19-32 | After the fetch resolves, loading is false. On success the chart is the fetched one. On an error the chart is left as it was. |
| `ChartView.ViewOf` | src/pages/ChartView.jsx:46-64 | Loading is shown exactly while loading. "Chart not found" is shown exactly when not loading and no chart is held. Otherwise the held chart is shown. |
| `ChartView.LoadingUntilResolved` | src/pages/ChartView.jsx:46-48 | The freshly mounted page shows the loading view. |
| `ChartView.ResolvedIsNotLoading` | src/pages/ChartView.jsx:31 | Once any fetch resolves, the loading view is gone. |
| `ChartView.FirstFetchOutcome` | src/pages/ChartView.jsx:26-31 | The first fetch shows "Chart not found" on an error and the fetched chart on success. |
| `ChartView.FailedRefetchKeepsPreviousChart` | src/pages/ChartView.jsx:15-31 | A failed fetch after an earlier success keeps showing the earlier chart. |
| `ChartView.ExportFileName` | src/pages/ChartView.jsx:38 | The file name ends in `_chart.json`. The part before that contains no whitespace and holds the title's non-whitespace characters in order. |
| `ChartView.ExportFileNameScan` | src/pages/ChartView.jsx:38 | The stem is the title with each maximal whitespace run replaced by a single `_`. |
| `ChartView.ExportFileNamePlainTitle` | src/pages/ChartView.jsx:38 | A title without whitespace gives exactly `title + "_chart.json"`. |
| `ChartView.ExportFileNameExample` | src/pages/ChartView.jsx:38 | "Org Chart" is exported as `Org_Chart_chart.json`. |
| `ChartView.PositionHeading` | src/pages/ChartView.jsx:111 | The heading is never empty. It is the position's title when that is non-empty, else `Untitled Position`. |
| `Dashboard.InitialDashboard` | src/pages/Dashboard.jsx:12-13 | The page starts loading, with an empty list. |
| `Dashboard.OnSessionChange` | src/pages/Dashboard.jsx:15-21 | Charts are requested exactly for the signed-in user's id, and not at all without a user. Without a user, loading is cleared. The list is untouched. |
| `Dashboard.ResolveFetch` | src/pages/Dashboard.jsx:30-35 | Loading ends whether the fetch succeeds or fails. On success the rows replace the list. On an error the list keeps its previous value. |
| `Dashboard.DeleteChart` | src/pages/Dashboard.jsx:38-51 | If the confirmation is declined or the delete fails, the list is unchanged. After a successful delete no chart with that id remains, and every other chart is kept, as often as it occurred and in its original order. |
| `Dashboard.DeleteAbsentId` | src/pages/Dashboard.jsx:48 | Deleting an id that is not in the list leaves the list unchanged. |
| `Dashboard.DeleteRemovesOne` | src/pages/Dashboard.jsx:48 | Deleting an id carried by one chart removes exactly that chart. |
| `Dashboard.DeleteIdempotent` | src/pages/Dashboard.jsx:48 | Deleting the same id again changes nothing. |
| `Dashboard.ViewOf` | src/pages/Dashboard.jsx:53-104 | With no user: welcome. With a user and loading: the loading view. With a user, not loading, and an empty list: "No charts yet". Otherwise the grid of the list. |
| `Dashboard.SignedOutWelcome` | src/pages/Dashboard.jsx:53-68 | Signed out, the welcome view is shown whatever the list holds. |
| `Dashboard.SignedOutNoFetch` | src/pages/Dashboard.jsx:18-20 | Signed out on first render, no request is issued and loading becomes false. |
| `Dashboard.SignedInFetchesOwnCharts` | src/pages/Dashboard.jsx:15-28 | Signed in, the list is requested for that user's id, and the loading view stays until the answer arrives. |
| `Dashboard.FailedFirstFetchLooksEmpty` | src/pages/Dashboard.jsx:30-35 | A failed first fetch shows "No charts yet", not an error. |
| `Dashboard.FirstFetchShowsRows` | src/pages/Dashboard.jsx:30-35 | A successful first fetch shows the grid of its rows, or "No charts yet" when there are none. |
| `Dashboard.DeleteOnlyChart` | src/pages/Dashboard.jsx:48 | Deleting the only chart leaves an empty list, which selects "No charts yet". |
| `Dashboard.LoadingNeverReturns` | src/pages/Dashboard.jsx:13-51 | Once `loading` is false, no sequence of session changes, fetch answers and deletes makes it true again. |
| `Dashboard.SessionChangesKeepList` | src/pages/Dashboard.jsx:15-21 | Any sequence of session changes leaves the list as it was. |
| `Dashboard.SecondSignInShowsPreviousList` | src/pages/Dashboard.jsx:15-35 | After one user's fetch succeeds, a second sign-in on the mounted page shows the first user's list, and still does after a failed fetch. |
| `Dashboard.SignInAfterSignOutSkipsLoading` | src/pages/Dashboard.jsx:15-21 | Signed out on first render and then signed in, the page shows "No charts yet" rather than the loading view. |

## Left out

- Datastore calls (`insert`, `select`, `delete`): each is replaced by the outcome it resolves to. Owner scoping by `.eq('user_id', …)` and `order('created_at', …)` happen in the remote service. The model only shows that the request names the signed-in user.
- Session handling: src/contexts/AuthContext is not part of this model. The current user is an input.
- Timestamps: the `created_at` value from `new Date().toISOString()` and its `toLocaleDateString` display depend on the clock and locale.
- Export download: `JSON.stringify`, `encodeURIComponent` and the anchor-element download are library and browser calls. So the export-then-reparse round trip is not modelled; only the file-name rule is.
- UI side effects: `alert`, `console.error` and `navigate` are not modelled. `confirm` is a boolean input, and navigation after a save is the chart id that `SaveChart` returns.
- Async ordering, React state batching and updates applied after unmount are scheduling concerns.
- Builder-page state that only drives rendering: the `loading` flag that disables the save button, `setTitle` / `setDescription` (plain assignments), and the `edit=<id>` query parameter, which the builder never reads.
- Rendering beyond the headings: descriptions, names, responsibilities, KPI sections and the `'No description'` fallback are left out.
- src/components/Header.jsx, src/App.jsx and src/common/SafeIcon.jsx: UI, routing and icon fallback only.
- `Text.IsWhitespace` lists the ECMAScript WhiteSpace and LineTerminator code points. The space separators are taken from the current Unicode category Zs; a JavaScript engine built on a different Unicode version may differ.
- `ChartBuilder.UpdatePosition` takes one of the four fields the inputs pass, not an arbitrary property key.
- `ChartBuilder.MaxId`: ids are unbounded integers. The loss of precision of JavaScript numbers above 2^53 is not modelled.
- Null fields in fetched rows (a chart without `positions`, a missing title) are not modelled: the records always carry strings and sequences.

# Josetsu Alert — a Dafny model of the alert core

Josetsu Alert warns people clearing snow about places where accidents have
happened before. It tracks the device position, picks the recorded accidents
within an alert radius, ranks them nearest first, shows a status line and a
dismissible banner, and on a button press reads a Japanese alert aloud with
the most natural Japanese voice available. A form lets users register new
accidents.

This project models that core and proves what it promises:

- `Text` — the JavaScript string operations the alerter relies on: `trim`
  with the exact ECMAScript whitespace set, decimal number text, `Math.round`,
  `map` with index, `join`, `includes`, `startsWith`, ASCII `toLowerCase`.
- `StableSort` — `Array.prototype.sort` with a numeric comparator. The sort is
  stable (ECMA-262 10th edition, section 22.1.3.27), so its result is
  determined: `SortBy` is proved sorted, a permutation and tie-preserving, and
  any sequence with those properties is proved equal to it.
- `Accidents` — the accident record, the record with its distance, the
  position fix, and the distance function as a parameter.
- `Nearby`, `UseNearbyAccidents` — the proximity filter and its hook.
- `VoiceMessage` — the spoken alert for zero, one and many accidents.
- `SettingsContext` — the settings store (class `Settings`).
- `Geolocation` — the position tracker (class `GeolocationTracker`, one method
  per event).
- `MainScreen` — staleness, elapsed seconds, status text, the play-button
  handler and the voice toggle.
- `ListScreen` — the ranked accident list and its labels.
- `WarningBanner` — the banner's dismiss flag (class `Banner`) and its text.
- `AddScreen` — the registration form (class `AddForm`): ordered validation,
  place-or-move marker, save outcome.
- `Speech` — Japanese-voice scoring and selection, the voice cache and the
  calls a spoken alert makes (class `SpeechEngine`).

Numbers are modelled as exact reals (distances, coordinates) and unbounded
integers (epoch milliseconds). The haversine distance is not modelled: every
operation that measures distance takes the distance function as a parameter
and is proved for all such functions. Clock readings, the
location source's answers and the store's save outcome are parameters of the
methods that consume them. The browser's voice list is the field
`SpeechEngine.voices`: the constructor and `VoicesChanged` set it, and
`GetJapaneseVoice` and `Speak` read it.

## Model

| member | source | states |
|---|---|---|
| Text.LeadingWhitespace | src/core/voiceMessage.ts:8 | the count of characters `trim` drops at the front: all of them are whitespace, and the next character (if any) is not |
| Text.TrailingWhitespace | src/core/voiceMessage.ts:8 | the count of characters `trim` drops at the back: all of them are whitespace, and the character before them (if any) is not |
| Text.Trim | src/core/voiceMessage.ts:8 | the trimmed text is empty exactly when the input is all ECMAScript whitespace, and otherwise neither starts nor ends with whitespace |
| Text.TrimSlice | src/core/voiceMessage.ts:8 | the trimmed text is the slice of the input that starts after the leading whitespace; everything before and after that slice is whitespace |
| Text.TrimIdempotent | src/core/voiceMessage.ts:8 | trimming twice equals trimming once |
| Text.TrimKeepsTrimmed | src/core/voiceMessage.ts:8 | a text without whitespace at either end is its own trim |
| Text.NatToString | src/core/voiceMessage.ts:20 | a count is written as non-empty decimal digits with no leading zero |
| Text.DecimalRoundTrip | src/core/voiceMessage.ts:20 | reading back the decimal text of a count gives the count |
| Text.NatToStringInjective | src/core/voiceMessage.ts:20 | different counts have different decimal texts |
| Text.IntToString | src/components/MainScreen.tsx:78 | an integer's text is its digits, with a minus sign when negative |
| Text.Round | src/components/MainScreen.tsx:78 | the rounded value is the nearest integer, halves rounded up |
| Text.MapWithIndex | src/core/voiceMessage.ts:21-24 | the mapped sequence has the same length and each element is the image of the element at the same index, given that index |
| Text.MapWithIndexSnoc | src/core/voiceMessage.ts:21-24 | mapping one more element appends its image at the next index |
| Text.Join | src/core/voiceMessage.ts:25 | joining no parts gives "" and joining one part gives that part |
| Text.JoinSnoc | src/core/voiceMessage.ts:25 | joining one more part adds exactly one separator and that part |
| Text.JoinLength | src/core/voiceMessage.ts:25 | a join is as long as its parts plus one separator between each pair |
| Text.Contains | src/adapters/speech.ts:16-18 | `includes` holds exactly when the needle occurs at some offset |
| Text.LowerAscii | src/adapters/speech.ts:15 | lowercasing keeps the length and lowercases each ASCII capital in place |
| StableSort.Insert | src/core/nearby.ts:19 | inserting adds exactly the one element |
| StableSort.InsertSorted | src/core/nearby.ts:19 | insertion into an ascending sequence keeps it ascending |
| StableSort.InsertTies | src/core/nearby.ts:19 | the inserted element goes to the head of its group of equal keys and no group is reordered |
| StableSort.SortBy | src/core/nearby.ts:19 | the sort result is ascending, a permutation of the input, and keeps each group of equal keys in input order |
| StableSort.SortedStableUnique | src/core/nearby.ts:19 | two ascending sequences that agree on the order of every group of ties are equal |
| StableSort.SortByIsTheStableSort | src/core/nearby.ts:19 | any ascending, tie-preserving arrangement of the input is the sort result |
| StableSort.FirstMinIndex | src/adapters/speech.ts:21-22 | the index found holds the least key, and every earlier element has a strictly greater key |
| StableSort.SortByHead | src/adapters/speech.ts:21-22 | the head of the stable sort is the first element with the least key |
| Nearby.WithDistances | src/core/nearby.ts:13-16 | each accident, in input order, is paired with its distance from the current position |
| Nearby.Within | src/core/nearby.ts:18 | the filter keeps exactly the entries at distance at most the threshold (inclusive), each as often as in the input |
| Nearby.WithinTies | src/core/nearby.ts:18 | the filter keeps every group of equal distances inside the threshold whole and in order, and drops the others |
| Nearby.GetNearbyAccidents | src/core/nearby.ts:7-20 | the result is no longer than the input, empty for no accidents, within the threshold, ascending by distance, and holds exactly the qualifying entries |
| Nearby.NearbyMembers | src/core/nearby.ts:13-19 | every result entry is an input accident with its own distance, and no accident within the radius is missing |
| Nearby.NearbyTies | src/core/nearby.ts:17-19 | accidents at the same distance keep their input order |
| Nearby.NearbyIsDetermined | src/core/nearby.ts:17-19 | any ascending, tie-preserving arrangement of the qualifying entries is the result |
| UseNearbyAccidents.UseNearbyAccidents | src/hooks/useNearbyAccidents.ts:17-26 | no position or no accidents gives the empty list; with a position the result is the proximity filter's, within the threshold and ascending |
| VoiceMessage.SpokenDescription | src/core/voiceMessage.ts:22 | a description is read trimmed, or as the fallback sentence when it is blank; either way it is non-empty with no whitespace at its ends |
| VoiceMessage.SpokenPlain | src/core/voiceMessage.ts:22 | a description without whitespace at its ends is read exactly as written |
| VoiceMessage.BuildVoiceMessage | src/core/voiceMessage.ts:7-11 | a blank description gives the fixed fallback alert; otherwise the trimmed description followed by "。ご注意ください。" |
| VoiceMessage.SingleMessageRecoversDescription | src/core/voiceMessage.ts:7-11 | the spoken description is recovered by removing the closing "。ご注意ください。" |
| VoiceMessage.Parts | src/core/voiceMessage.ts:21-24 | one reading per accident, numbered from 1 in list order |
| VoiceMessage.BuildVoiceMessageForMultiple | src/core/voiceMessage.ts:17-26 | the message is empty exactly for no accidents; for one it is the single alert with no introduction; for two or more it is the count introduction, the readings joined by one space, and the caution; a non-empty message always ends with the caution |
| VoiceMessage.JoinPartsSnoc | src/core/voiceMessage.ts:21-25 | one more accident adds one space and its numbered reading to the joined readings |
| VoiceMessage.MultipleMessageSnoc | src/core/voiceMessage.ts:20-25 | one more accident in a list of two or more bumps the count and inserts its reading just before the caution |
| VoiceMessage.IntroCount | src/core/voiceMessage.ts:20 | the number spoken in the introduction reads back as the number of accidents |
| VoiceMessage.TwoAccidentExample | src/core/voiceMessage.ts:17-25 | two accidents described "A" and "B" give "付近に2件の事故履歴があります。1件目。A。 2件目。B。ご注意ください。" |
| VoiceMessage.PlainDescriptionExample | src/core/voiceMessage.ts:10 | one accident described "転落事故" gives "転落事故。ご注意ください。" |
| VoiceMessage.BlankDescriptionExample | src/core/voiceMessage.ts:9 | one accident whose description is only an ideographic and an ASCII space gives the fallback alert |
| SettingsContext.Settings.constructor | src/contexts/SettingsContext.tsx:15-16 | voice starts on and the radius starts at 100 m |
| SettingsContext.Settings.SetVoiceEnabled | src/contexts/SettingsContext.tsx:26 | voice is set to the value given and the radius is untouched |
| SettingsContext.Settings.SetThresholdMeters | src/contexts/SettingsContext.tsx:18-28 | an offered radius (50, 100 or 200) is taken, any other value leaves the radius as it was without error, voice is untouched, and the radius stays one of the options |
| SettingsContext.UseSettings | src/contexts/SettingsContext.tsx:36-39 | outside a provider the call fails with "useSettings must be used within SettingsProvider"; inside it returns the provider's settings |
| Geolocation.ErrorMessage | src/hooks/useGeolocation.ts:41-46 | code 1 gives the permission message, code 2 the unavailable message, and any other code or none the timeout message, each in both directions |
| Geolocation.WatchOption | src/hooks/useGeolocation.ts:22 | watching is on unless it is explicitly turned off |
| Geolocation.GeolocationTracker.constructor | src/hooks/useGeolocation.ts:23-27 | no position, no error, loading, no update time, and no watch registered |
| Geolocation.GeolocationTracker.RequestPosition | src/hooks/useGeolocation.ts:29-31 | a request sets loading and clears the error, leaving the last fix and its time alone |
| Geolocation.GeolocationTracker.RequestSucceeded | src/hooks/useGeolocation.ts:34-49 | success stores the fix, its completion time as update time and last request time, and ends loading |
| Geolocation.GeolocationTracker.RequestFailed | src/hooks/useGeolocation.ts:40-49 | failure sets the error message for the code and ends loading; the previous fix and its time survive |
| Geolocation.GeolocationTracker.StartWatch | src/hooks/useGeolocation.ts:56-58 | the watch is registered exactly when watching is on |
| Geolocation.GeolocationTracker.Mount | src/hooks/useGeolocation.ts:52-58 | mounting starts a request and registers the watch when watching is on |
| Geolocation.GeolocationTracker.WatchUpdate | src/hooks/useGeolocation.ts:58-61 | a watch update stores the fix and the current time and changes neither error nor loading |
| Geolocation.GeolocationTracker.StopWatch | src/hooks/useGeolocation.ts:62-64 | teardown unregisters the watch and changes nothing else |
| MainScreen.IsStale | src/components/MainScreen.tsx:65 | a fix is stale only when its time is known and more than 30 000 ms have passed |
| MainScreen.StaleBoundary | src/components/MainScreen.tsx:65 | exactly 30 000 ms is not stale and 30 001 ms is |
| MainScreen.StaleStaysStale | src/components/MainScreen.tsx:65 | a stale fix stays stale as the clock advances |
| MainScreen.ElapsedSeconds | src/components/MainScreen.tsx:59 | the elapsed seconds are the whole seconds since the fix, and 0 when the clock reads earlier than the fix |
| MainScreen.ElapsedLabel | src/components/MainScreen.tsx:59 | the label is "—" exactly when no update time is known |
| MainScreen.ElapsedLabelReadsBack | src/components/MainScreen.tsx:59 | the label is a decimal number followed by exactly "秒前", and that number reads back as the whole seconds elapsed |
| MainScreen.StatusText | src/components/MainScreen.tsx:71-80 | no entries give the no-hazard text (and only they do); one entry the single-hazard text with the first entry's rounded distance; more the count and the first entry's rounded distance |
| MainScreen.ManyHazardsCount | src/components/MainScreen.tsx:79 | the count in the many-hazards text reads back as the number of entries |
| MainScreen.StatusNamesNearest | src/components/MainScreen.tsx:29-30 | the first entry of the nearby list is within the radius and no farther than any accident within the radius |
| MainScreen.HandlePlayVoice | src/components/MainScreen.tsx:32-38 | an empty list starts nothing; otherwise the alert for the whole list is spoken first and the alert sound played second |
| MainScreen.PlayButtonState | src/components/MainScreen.tsx:84-90 | the button exists only with a fix, no error and a non-empty list, and is usable exactly when voice is also on |
| MainScreen.TapPlayButton | src/components/MainScreen.tsx:84-90 | a tap starts something exactly when the button is usable, and then it speaks the alert for the list first and plays the alert sound second, nothing else |
| MainScreen.ToggleVoice | src/components/MainScreen.tsx:103 | the toggle negates voice and leaves the radius alone |
| MainScreen.Clock.constructor | src/components/MainScreen.tsx:18 | the screen's time starts at the clock reading taken at mount |
| MainScreen.Clock.Tick | src/components/MainScreen.tsx:25 | a tick sets the screen's time to the clock reading |
| ListScreen.RankedAccidentsPermute | src/components/ListScreen.tsx:18-28 | a permutation of ranked entries carries a permutation of their accidents |
| ListScreen.Ranked | src/components/ListScreen.tsx:17-28 | with a position, every accident appears once with its own distance, ascending, ties in recorded order |
| ListScreen.SortedList | src/components/ListScreen.tsx:17-29 | the list holds exactly the recorded accidents; with a position each has its distance, they are nearest first and accidents at equal distance keep their recorded order (the list is the stable ranking); without one they keep the recorded order with no distance |
| ListScreen.DistanceLabel | src/components/ListScreen.tsx:44-46 | the label is "—" exactly when the distance is unknown or at least 100 000 m, otherwise "約…m" |
| ListScreen.NoPositionNoDistances | src/components/ListScreen.tsx:29-46 | without a position every row shows "—" |
| ListScreen.RoundMonotone | src/components/ListScreen.tsx:45 | `Math.round` keeps order: a smaller distance never rounds to a larger number |
| ListScreen.DistanceLabelReadsBack | src/components/ListScreen.tsx:45 | below 100 000 m the characters between "約" and "m" are the decimal text of the rounded distance: within half a metre of it, and reading back as that number when the distance is not negative |
| ListScreen.ShownDistancesAscend | src/components/ListScreen.tsx:17-29 | with a position, the rounded distances shown down the sorted list never decrease |
| ListScreen.ShowsEmptyNotice | src/components/ListScreen.tsx:57-59 | the empty notice shows exactly when there are no accidents |
| ListScreen.EmptyNoticeMatchesList | src/components/ListScreen.tsx:17-59 | the empty notice shows exactly when the list has no rows, with or without a position |
| WarningBanner.OthersSuffix | src/components/WarningBanner.tsx:30-31 | the suffix is empty exactly when there is at most one entry |
| WarningBanner.OthersSuffixCount | src/components/WarningBanner.tsx:31 | the number in the suffix is one less than the number of entries |
| WarningBanner.BannerMessage | src/components/WarningBanner.tsx:12-31 | nothing is shown when dismissed or when the list is empty; otherwise the message starts with the first entry's rounded distance and ends with the others suffix |
| WarningBanner.Banner.constructor | src/components/WarningBanner.tsx:10 | the banner starts not dismissed |
| WarningBanner.Banner.Render | src/components/WarningBanner.tsx:12 | the banner renders nothing exactly when dismissed or when the list is empty |
| WarningBanner.Banner.Close | src/components/WarningBanner.tsx:20 | closing sets the dismissed flag |
| WarningBanner.ClosedStaysHidden | src/components/WarningBanner.tsx:12-20 | once closed, the banner renders nothing whatever the list |
| AddScreen.Validate | src/components/AddScreen.tsx:88-99 | the checks run in the order date, description, position, and only the first failure is reported; all pass exactly when all three are present |
| AddScreen.ValidateReportsFirstOnly | src/components/AddScreen.tsx:88-99 | with everything missing only the date is reported, and a description of spaces passes |
| AddScreen.SaveErrorMessage | src/components/AddScreen.tsx:112 | a thrown error's message is shown, or "保存に失敗しました" when the thrown value is not an Error |
| AddScreen.AddForm.constructor | src/components/AddScreen.tsx:13-21 | every field starts empty, with no position, no error and nothing loading or saving |
| AddScreen.AddForm.SetNextId | src/components/AddScreen.tsx:28 | the generated id is stored and nothing else changes |
| AddScreen.AddForm.SetOccurredAt | src/components/AddScreen.tsx:136 | the date input is stored and nothing else changes |
| AddScreen.AddForm.SetDescription | src/components/AddScreen.tsx:149 | the description input is stored and nothing else changes |
| AddScreen.AddForm.MountMap | src/components/AddScreen.tsx:32-49 | the map becomes available and nothing else changes |
| AddScreen.AddForm.PlaceMarker | src/components/AddScreen.tsx:57-64 | an existing marker is moved, otherwise the single marker is created; the position becomes the tapped coordinate |
| AddScreen.AddForm.StartGps | src/components/AddScreen.tsx:67 | a location request sets the loading flag |
| AddScreen.AddForm.GpsSucceeded | src/components/AddScreen.tsx:69-76 | a fix moves the pin there when the map exists, and ends loading |
| AddScreen.AddForm.GpsFailed | src/components/AddScreen.tsx:77-80 | a failed location request shows "位置情報を取得できませんでした" and ends loading |
| AddScreen.AddForm.HandleSubmit | src/components/AddScreen.tsx:84-115 | the first failed check's message is shown and nothing is saved; otherwise the record with the generated id and the form values is saved, success goes to "/list", and failure shows the error message and ends saving |
| Speech.IsJapanese | src/adapters/speech.ts:12 | a voice is Japanese exactly when its language tag starts with "ja" |
| Speech.JapaneseVoices | src/adapters/speech.ts:12 | the filter keeps only Japanese voices and never lengthens the list |
| Speech.JapaneseVoicesMembers | src/adapters/speech.ts:12 | the filter keeps exactly the Japanese voices: a voice is kept if and only if it is in the list and its tag starts with "ja" |
| Speech.JapaneseVoicesIndex | src/adapters/speech.ts:12 | the filter keeps the browser's order: each kept voice stands at an index whose earlier Japanese voices are exactly the ones kept before it |
| Speech.Prefer | src/adapters/speech.ts:14-20 | the score is 3 for "google", else 2 for "microsoft" or "online", else 1 for "premium" or "enhanced", else 0, matched on the lowercased name |
| Speech.PreferGoogleExample | src/adapters/speech.ts:15-16 | "GOOGLE" scores 3: the match ignores case |
| Speech.SelectJapaneseVoice | src/adapters/speech.ts:8-23 | nothing is returned exactly when no voice's language starts with "ja"; a returned voice is one of the voices, Japanese, and scores at least as high as every Japanese voice |
| Speech.SortedHeadIsBest | src/adapters/speech.ts:21-22 | after the descending sort by score the first voice is one of the voices and scores at least as high as each of them |
| Speech.SelectionIsFirstBest | src/adapters/speech.ts:21-22 | among the best-scoring Japanese voices the first in the browser's order is chosen |
| Speech.CachedOrSelected | src/adapters/speech.ts:27-40 | a cached answer is returned as is; without a synthesizer or with no voices the answer is none; otherwise the selection |
| Speech.SpeechEngine.constructor | src/adapters/speech.ts:25 | the cache starts unset, with no listener and no calls made |
| Speech.SpeechEngine.VoicesChanged | src/adapters/speech.ts:34-36 | a pending one-shot listener re-selects from the new voice list and unregisters |
| Speech.SpeechEngine.GetJapaneseVoice | src/adapters/speech.ts:27-41 | a cached answer is returned without re-selecting; with an empty voice list "none" is cached and the listener registered; otherwise the selection is cached and returned |
| Speech.SpeechEngine.Speak | src/adapters/speech.ts:102-112 | with a synthesizer, a cancel is issued and then one utterance of the text in "ja-JP" at rate 1.08 and pitch 1, with the Japanese voice when known; a voice already cached is kept, otherwise the selection from the current voice list is cached, and the voices-changed listener is armed exactly when that list was empty; without a synthesizer nothing happens and the listener stays as it was |
| Speech.SpeechEngine.Cancel | src/adapters/speech.ts:114-116 | a cancel is issued exactly when there is a synthesizer |
| Speech.UtteranceVoiceIsJapanese | src/adapters/speech.ts:109-110 | a voice given to an utterance is always a Japanese one |

## Left out

- The haversine distance function (`src/core/distance.ts`) is not part of this model; it is a parameter, and nothing is proved about its values.
- Floating point: distances and coordinates are exact reals, so NaN, infinities from the distance function and rounding error are not modelled. `Math.round` is modelled on exact reals; `toFixed` coordinate display is left out.
- Text.LowerAscii: lowercases ASCII letters only, while `toLowerCase` follows full Unicode case mapping. Two non-ASCII characters lower to ASCII letters: the Kelvin sign U+212A becomes "k" and U+0130 becomes "i" followed by a combining dot. None of "google", "microsoft", "online", "premium" or "enhanced" contains a "k", and the "i" of U+0130 is always followed by the combining dot, which none of those words has after an "i". So `includes` of those words gives the same answer on both lowercasings, but the model does not prove this.
- `playAlertSound` (Web Audio oscillator scheduling) is the effect `PlayAlertSound`; its sound is not modelled.
- The location adapter (`src/adapters/location.ts`), `fetchAccidents` and the accidents API plugin are I/O; their results are parameters.
- `generateNextId` and `saveAccident` are not part of this model: the id is a parameter of `SetNextId` and the save outcome a parameter of `HandleSubmit`.
- Map rendering, the settings screen, routing and build configuration, and the static headings and hints of every screen.
- React effects, the one-second interval and promise interleaving: each callback is one atomic method call, and state updates batched by React are applied in program order.
- Speech.SelectJapaneseVoice: the in-place `sort` of the freshly filtered `ja` array is modelled on values; no other code sees that array, so only the chosen voice matters.
- Speech.SpeechEngine.VoicesChanged: requires a synthesizer, since the browser can only fire `voiceschanged` on an existing one.
- ListScreen.SortedList: the `accidents` state is a value here, so the copy made before sorting (which keeps the state array in recorded order) is implicit.
- Geolocation.GeolocationTracker.WatchUpdate: requires a registered watch, since only a registered callback can be called; the adapter's own teardown is not modelled.

# Emergency response dashboard: a verified model of its core rules

The system is an emergency-response prototype. A backend samples frames from an
uploaded accident video, counts the vehicles and smoke in a list of detected
labels, stores incidents in a DynamoDB table and hands out presigned S3 upload
URLs. A React dashboard lets a dispatcher pick services, resize the two panels
and browse past incidents. A separate script tags free text from an image model
with a small keyword list.

This project models those rules in Dafny and proves what they guarantee:

- `Keywords`: the keyword tagger of `testModel2.py`. The method performs the
  source's five conditional appends. It is proved against a rule table, and the
  joined output splits back into its tags.
- `Analysis`:
  - Frame sampling in `extract_accident_frames`: a loop over the frames that
    uses Python's floored `%`. The kept frames are characterised by their read
    positions, and the raised errors are given exactly.
  - The validation and counted fields of `generate_incident_report`.
- `IncidentStore`: the incident table as a class over a map. Saving builds the
  item in dict-literal order, so a missing key raises `KeyError` before the
  put. Listing scans the table and then sorts in place, most recent timestamp
  first. The result is a permutation of the table and is sorted.
- `S3`: the service configuration check and the upload-URL rule
  (`videos/<file name>`, one hour, `put_object`).
- `Dashboard`: the dashboard's state as a class:
  - the service toggles;
  - the divider drag, clamped to 20..80 with the panels always summing to 100;
  - the Cancel and Confirm alerts;
  - the frame grid.
- `PastIncidents`: the past-incidents modal:
  - the fetch state as a class, with the `open` effect, loading, incidents and
    error;
  - rendering each incident with JavaScript truthiness and React's rules
    for children:
    - a `TypeError` where a property of `null` or `undefined` would be read;
    - a `0` left behind by `0 && …`, which shows as the text "0";
    - an object child, which React refuses.

Shared modules:

- `Wrappers`: `Option` and `Result`.
- `Text`: Python's substring test, Python's str order, and in-order selection
  from lists.
- `Json`: JSON values, JavaScript property lookup and truthiness.

Nondeterministic or external inputs are parameters:

- the video's frame rate and frames;
- the generated uuid and the creation time;
- the presigning client;
- the random seconds of the sample frames;
- the fetch outcome.

## Model

| member | source | states |
|---|---|---|
| Keywords.ParseKeywords | testModel2.py:37-50 | the returned string is the rule-table tags for the text joined with ", " |
| Keywords.InjuredIff | testModel2.py:39-40 | "injured" is emitted iff the text contains "lying" |
| Keywords.FireIff | testModel2.py:41-42 | "Fire" is emitted iff the text contains "fire", "flame" or "smoke", and it is emitted at most once |
| Keywords.CollisionIff | testModel2.py:43-44 | "Collision" is emitted iff the text contains "collision" or "accident" |
| Keywords.DamageIff | testModel2.py:45-46 | "Damage" is emitted iff the text contains "damage" or "destroyed" |
| Keywords.InjuryIff | testModel2.py:47-48 | "injury" is emitted iff the text contains "injured" or "injury" |
| Keywords.LyingAndInjuredGivesBoth | testModel2.py:39-48 | a text with "lying" and "injured" gets both the "injured" and the "injury" tag |
| Keywords.FiredAppend | testModel2.py:38-48 | appending one rule to the table can add only that rule's tag, and only at the end |
| Keywords.FiredMember | testModel2.py:38-48 | a tag is emitted iff some rule with that tag has a trigger word contained in the text |
| Keywords.AnyContainedLiteral | testModel2.py:41 | the `or` of substring tests over one, two or three words is the any-word test |
| Keywords.AnyContainedWitness | testModel2.py:39-48 | a triggered rule has a trigger word that occurs in the text |
| Keywords.VocabularyOfRules | testModel2.py:38-48 | the rules emit exactly the five tags, in source order |
| Keywords.OnlyKnownTags | testModel2.py:38-48 | every emitted tag is one of the five, is non-empty and has no comma |
| Keywords.NoTagIffNoTrigger | testModel2.py:38-48 | no tag is emitted iff none of the ten trigger words occurs in the text |
| Keywords.FiredIsSubsequence | testModel2.py:38-48 | the emitted tags are an in-order selection of the rules' tags |
| Keywords.TagsOrderedAndDistinct | testModel2.py:38-48 | tags come out in source order, each at most once |
| Keywords.SplitJoin | testModel2.py:50 | splitting a ", "-join of non-empty comma-free parts gives the parts back |
| Keywords.ParseKeywordsSplits | testModel2.py:50 | the output splits back into exactly the emitted tags |
| Keywords.EmptyIffNoTrigger | testModel2.py:38-50 | the output is "" iff no trigger word occurs in the text |
| Keywords.UpperCaseFireTriggersNothing | testModel2.py:41 | the substring test is case-sensitive: "FIRE" yields "" |
| Keywords.Join | testModel2.py:50 | the join of no parts is ""; otherwise it starts with the first part, followed by the separator when there are more |
| Keywords.CommaIndex | testModel2.py:50 | gives the first comma's index, or the length when there is no comma |
| Analysis.Sampled | backend/app/services/analysis_service.py:27-34 | the kept frames are at most as many as the frames and are all frames of the video; a video shorter than the divisor's absolute value keeps none |
| Analysis.ExtractSpec | backend/app/services/analysis_service.py:17-45 | a success holds 1 to 4 frames of the opened video |
| Analysis.ExtractAccidentFrames | backend/app/services/analysis_service.py:17-45 | the reading loop returns what the sampling rule specifies, including each error |
| Analysis.PyModZero | backend/app/services/analysis_service.py:33 | Python's `%` is zero exactly when the divisor's absolute value divides the position |
| Analysis.KeptPositionsMembers | backend/app/services/analysis_service.py:27-34 | a read position is kept iff it is between 1 and the frame count and `%` of it by the step is zero |
| Analysis.KeptPositionsIncreasing | backend/app/services/analysis_service.py:27-34 | the kept positions are strictly increasing and within the video |
| Analysis.SampledAtPositions | backend/app/services/analysis_service.py:27-34 | the j-th kept frame is the frame read at the j-th kept position |
| Analysis.FirstKeptPosition | backend/app/services/analysis_service.py:33 | no position before twice the frame rate is kept, and that position itself is |
| Analysis.ExtractOkFrames | backend/app/services/analysis_service.py:33-41 | a success holds 1 to 4 frames: the frames at the first kept positions, in order |
| Analysis.ExtractErrors | backend/app/services/analysis_service.py:22-39 | an open failure iff the video cannot be opened; ZeroDivisionError iff the rate is 0 and a frame is read; "no frames" iff the video is empty or shorter than twice its rate |
| Analysis.VehicleLabels | backend/app/services/analysis_service.py:82 | the filtered list is no longer than the input and holds only labels with "car" or "truck" |
| Analysis.HasSmoke | backend/app/services/analysis_service.py:83 | holds iff some label is exactly "smoke" |
| Analysis.VehicleCountIsIndexCount | backend/app/services/analysis_service.py:82 | the vehicle count is the number of positions holding a label that contains "car" or "truck" |
| Analysis.VehicleLabelsMembers | backend/app/services/analysis_service.py:82 | the filtered list holds exactly the input's labels that contain "car" or "truck" |
| Analysis.MatchingExamples | backend/app/services/analysis_service.py:82-83 | "scar" counts as a vehicle; "smoke" is exact list membership, so "heavy smoke" does not count |
| Analysis.GenerateIncidentReport | backend/app/services/analysis_service.py:75-125 | as written: a non-list is refused with "Invalid analysis results format" |
| Analysis.GenerateIncidentReportNeverSucceeds | backend/app/services/analysis_service.py:75-125 | as written, no input yields a report; every list of label strings ends in the NameError on `time` |
| Analysis.ReportFields | backend/app/services/analysis_service.py:75-95 | corrected: over lists of label strings and non-lists, fails iff the input is not a list; otherwise at most one vehicle per label, and smoke iff some label is exactly "smoke" |
| Analysis.ReportFieldsVehicles | backend/app/services/analysis_service.py:82 | the corrected vehicle count is the number of positions whose label contains "car" or "truck" |
| IncidentStore.BuildItem | backend/app/services/dynamodb_service.py:18-25 | the item is built iff all four keys are present; its fields are renamed to the table's names with the given id and time; otherwise the first missing key in dict order is the error |
| IncidentStore.SortByTimestampDescending | backend/app/services/dynamodb_service.py:40 | in place, the array ends sorted by descending timestamp and is a permutation of its old contents |
| IncidentStore.InsertLeft | backend/app/services/dynamodb_service.py:40 | inserting one item into a sorted prefix extends the sorted prefix, leaves the items after it untouched, and permutes the array |
| IncidentStore.SwapAt | backend/app/services/dynamodb_service.py:40 | exchanges two neighbours and nothing else |
| IncidentStore.InsertedSorted | backend/app/services/dynamodb_service.py:40 | once the moved item has found its place, the prefix is sorted |
| IncidentStore.IncidentsFromScan | backend/app/services/dynamodb_service.py:36-42 | missing `Items` gives []; otherwise a permutation of the scanned items, sorted by descending timestamp |
| IncidentStore.IncidentTable.constructor | backend/app/services/dynamodb_service.py:7-14 | connecting to the EmergencyIncidents table exposes the items already stored in it, each under its own id |
| IncidentStore.IncidentTable.SaveIncident | backend/app/services/dynamodb_service.py:16-32 | stores the built item under the generated id, replacing any item with that id; on a missing key nothing changes and the key is reported; a fresh id adds one item |
| IncidentStore.IncidentTable.Scan | backend/app/services/dynamodb_service.py:36 | the scan lists each stored item exactly once |
| IncidentStore.IncidentTable.GetAllIncidents | backend/app/services/dynamodb_service.py:34-45 | returns every stored item exactly once, sorted by descending timestamp |
| IncidentStore.SavedItemListed | backend/app/services/dynamodb_service.py:16-42 | after a save, the listing holds the new item with its id, timestamp and notes |
| S3.FileNameOfVideoKey | backend/app/services/s3_service.py:37 | stripping "videos/" from a key gives back the file name |
| S3.VideoKeyInjective | backend/app/services/s3_service.py:37 | different file names map to different keys |
| S3.S3Service.constructor | backend/app/services/s3_service.py:11-16 | the service keeps the four configured settings |
| S3.S3Service.Create | backend/app/services/s3_service.py:11-23 | refuses to start iff any of the four settings is unset or empty |
| S3.S3Service.GetUploadUrl | backend/app/services/s3_service.py:33-48 | refuses iff the file name or the content type is empty; fails iff the client fails; otherwise gives the client's URL for put_object of "videos/" + file name with that content type and 3600 seconds |
| S3.S3Service.ValidationPrecedesSigning | backend/app/services/s3_service.py:34-35 | an empty input is refused the same way whatever the client |
| S3.S3Service.UploadKeyShape | backend/app/services/s3_service.py:37-48 | a returned key starts with "videos/", is longer than it, and gives the file name back |
| Dashboard.Toggle | emergency-dashboard/src/components/dashboard/EmergencyDashboard.jsx:199-219 | the pressed service flips and the other two keep their values |
| Dashboard.ToggleTwice | emergency-dashboard/src/components/dashboard/EmergencyDashboard.jsx:199-219 | pressing a button twice restores the selection |
| Dashboard.TogglesCommute | emergency-dashboard/src/components/dashboard/EmergencyDashboard.jsx:199-219 | presses may be reordered |
| Dashboard.ClampLeftWidth | emergency-dashboard/src/components/dashboard/EmergencyDashboard.jsx:93 | the width stays in 20..80 and equals the position when the position is in that range |
| Dashboard.ClampMonotone | emergency-dashboard/src/components/dashboard/EmergencyDashboard.jsx:93 | clamping is monotone and idempotent |
| Dashboard.TwoDigits | emergency-dashboard/src/components/dashboard/EmergencyDashboard.jsx:25 | two decimal digits whose value is the number |
| Dashboard.SampleFrames | emergency-dashboard/src/components/dashboard/EmergencyDashboard.jsx:22-26 | twelve frames with ids 1..12 and labels "14:MM:SS", with minute 35 + i and the given seconds |
| Dashboard.ShownFrames | emergency-dashboard/src/components/dashboard/EmergencyDashboard.jsx:144 | the first (up to) four frames, unchanged |
| Dashboard.ShownSampleFrames | emergency-dashboard/src/components/dashboard/EmergencyDashboard.jsx:22-26 | the grid shows exactly the frames with ids 1 to 4 |
| Dashboard.EmergencyDashboard.constructor | emergency-dashboard/src/components/dashboard/EmergencyDashboard.jsx:8-19 | police and ambulance are selected and fire is not; panels start at 60/40; no drag is in progress |
| Dashboard.EmergencyDashboard.PressService | emergency-dashboard/src/components/dashboard/EmergencyDashboard.jsx:199-219 | only the selection changes, by the toggle; the panel invariant is kept |
| Dashboard.EmergencyDashboard.MouseDown | emergency-dashboard/src/components/dashboard/EmergencyDashboard.jsx:82-87 | a drag starts and nothing else changes; the panel invariant is kept |
| Dashboard.EmergencyDashboard.MouseMove | emergency-dashboard/src/components/dashboard/EmergencyDashboard.jsx:89-97 | during a drag the left panel takes the clamped position and the right one the rest; otherwise nothing changes; 20 <= left <= 80 and left + right = 100 are kept |
| Dashboard.EmergencyDashboard.MouseUp | emergency-dashboard/src/components/dashboard/EmergencyDashboard.jsx:99-103 | the drag ends and nothing else changes; the panel invariant is kept |
| Dashboard.EmergencyDashboard.Cancel | emergency-dashboard/src/components/dashboard/EmergencyDashboard.jsx:232 | alerts "Incident response cancelled" and changes no state |
| Dashboard.EmergencyDashboard.Confirm | emergency-dashboard/src/components/dashboard/EmergencyDashboard.jsx:239 | alerts "Emergency services dispatched" and changes no state |
| PastIncidents.RenderAnalysis | emergency-dashboard/src/components/dashboard/PastIncidentsModal.jsx:33-74 | the fallback is shown iff the analysis is falsy |
| PastIncidents.RenderAnalysisIsTable | emergency-dashboard/src/components/dashboard/PastIncidentsModal.jsx:36-73 | the five blocks equal the field table read in order |
| PastIncidents.SectionsFromMember | emergency-dashboard/src/components/dashboard/PastIncidentsModal.jsx:38-71 | a field gets its heading iff it is truthy, and the block shows that field's value |
| PastIncidents.StrayPieces | emergency-dashboard/src/components/dashboard/PastIncidentsModal.jsx:38-71 | every left-behind text is "0", and one appears iff some field holds 0 |
| PastIncidents.ZeroCasualtiesShowsZero | emergency-dashboard/src/components/dashboard/PastIncidentsModal.jsx:45-50 | a casualties value of 0 shows no block but the text "0" |
| PastIncidents.SectionsFromLabels | emergency-dashboard/src/components/dashboard/PastIncidentsModal.jsx:38-71 | headings are an in-order selection of the five |
| PastIncidents.LabelsAppend | emergency-dashboard/src/components/dashboard/PastIncidentsModal.jsx:36-73 | the headings of two block lists placed one after the other are their headings one after the other |
| PastIncidents.LabelOfMember | emergency-dashboard/src/components/dashboard/PastIncidentsModal.jsx:36-73 | a shown block's heading is among the shown headings |
| PastIncidents.AnalysisSections | emergency-dashboard/src/components/dashboard/PastIncidentsModal.jsx:33-74 | for a truthy analysis, each field gets a block iff it is truthy, showing its value, under headings in fixed order without repeats; a "0" is left behind iff some field holds 0 |
| PastIncidents.AbsentAnalysisText | emergency-dashboard/src/components/dashboard/PastIncidentsModal.jsx:34 | a null or undefined analysis shows "No analysis available" |
| PastIncidents.Badges | emergency-dashboard/src/components/dashboard/PastIncidentsModal.jsx:117-125 | a TypeError iff the services value is null or undefined; otherwise each badge is shown iff its flag is truthy, in Police, Ambulance, Fire Dept order, without repeats, and a "0" is shown iff some flag holds 0 |
| PastIncidents.BadgesOrdered | emergency-dashboard/src/components/dashboard/PastIncidentsModal.jsx:117-125 | leaving out the "0" texts, the badges are an in-order selection of the three, without repeats |
| PastIncidents.Title | emergency-dashboard/src/components/dashboard/PastIncidentsModal.jsx:106 | "Incident " followed by the id's first 8 characters, or the whole id if it is shorter; a TypeError when the id is not a string |
| PastIncidents.UuidTitle | emergency-dashboard/src/components/dashboard/PastIncidentsModal.jsx:106 | a 36-character id gives a 17-character title ending with the id's first 8 characters |
| PastIncidents.NotesShown | emergency-dashboard/src/components/dashboard/PastIncidentsModal.jsx:131 | truthy notes show as they are; otherwise "No notes added" is shown; what is shown is always truthy |
| PastIncidents.NotesFallback | emergency-dashboard/src/components/dashboard/PastIncidentsModal.jsx:131 | absent, null or empty notes show "No notes added"; non-empty text shows itself |
| PastIncidents.RenderIncident | emergency-dashboard/src/components/dashboard/PastIncidentsModal.jsx:99-140 | a TypeError iff the id is not a string or services or report is null or undefined; otherwise an invalid child iff the shown notes or a shown analysis value is not a valid React child; a rendered card is built from the title, badges, notes and analysis rules |
| PastIncidents.ObjectChildRefused | emergency-dashboard/src/components/dashboard/PastIncidentsModal.jsx:41-131 | object-valued notes, or an object under a shown analysis field, make the card an invalid child |
| PastIncidents.RenderList | emergency-dashboard/src/components/dashboard/PastIncidentsModal.jsx:99 | the list renders iff every incident does, card i being incident i's |
| PastIncidents.ViewOf | emergency-dashboard/src/components/dashboard/PastIncidentsModal.jsx:31-99 | nothing iff closed; the list iff open, not loading, no truthy error and every incident renders; a crash iff `incidents` is not an array or some incident fails |
| PastIncidents.PastIncidentsModal.Render | emergency-dashboard/src/components/dashboard/PastIncidentsModal.jsx:31-99 | the current state shows nothing when closed, the spinner while loading, a truthy error, or a crash for a non-array `incidents` |
| PastIncidents.ViewPrecedence | emergency-dashboard/src/components/dashboard/PastIncidentsModal.jsx:31-98 | closed renders nothing; loading shows only the spinner; a truthy error is shown instead of the list |
| PastIncidents.PastIncidentsModal.constructor | emergency-dashboard/src/components/dashboard/PastIncidentsModal.jsx:6-14 | starts with no incidents, loading, and no error; the mount effect fetches iff the modal starts open |
| PastIncidents.PastIncidentsModal.SetOpen | emergency-dashboard/src/components/dashboard/PastIncidentsModal.jsx:10-19 | the render with the new prop and the old state comes first and is returned; then a fetch of the past-incidents URL starts, with loading set, iff `open` changed to true and that render did not crash |
| PastIncidents.PastIncidentsModal.CompleteFetch | emergency-dashboard/src/components/dashboard/PastIncidentsModal.jsx:19-28 | an ok body sets incidents to its `incidents` and leaves error; a non-ok response, a throw or a null or undefined body sets error to the thrown message; loading always ends |
| Text.LexLeTotal | backend/app/services/dynamodb_service.py:40 | any two timestamps are ordered one way or the other |
| Text.LexLeTransitive | backend/app/services/dynamodb_service.py:40 | the timestamp order is transitive |
| Text.ContainsAt | testModel2.py:39 | a match at an index means the substring is contained |
| Text.TooLongNotContained | testModel2.py:39 | a pattern longer than the text is not contained |
| Text.SubsequenceMembers | testModel2.py:38-48 | an in-order selection holds only elements of the list it was taken from |
| Text.SubsequenceOfDistinct | testModel2.py:38-48 | an in-order selection from a list without repeats has no repeats |
| Text.DistinctCountsOnce | testModel2.py:38-48 | in a list without repeats each element occurs at most once |

## Left out

- Video decoding (OpenCV) is left out. A video is its integral frame rate and its frame sequence. `int()` of the capture's reported rate happens before the model.
- analyze_frame (the DETR object detector) is left out, because it is a neural network. Its output, a list of labels, is the input of the report.
- Analysis.GenerateIncidentReport and Analysis.ReportFields: the list elements are taken to be strings, the id2label names that analyze_frame returns. The TypeError that `"car" in x` raises for a non-string element such as `0` or `None` (backend/app/services/analysis_service.py:82, re-raised at :123-125) is not modelled.
- Analysis.ReportFields: gives only the validation and the two computed fields. The constant injuries, environment, hazards and needs, and the formatted report text, are not modelled.
- The uuid4 id and the `utcnow` time of save_incident are parameters. Failures of `put_item` and `scan` are left out. So is scan pagination: a single scan is taken to return the whole table.
- IncidentStore.Item: `timestamp` is a string, so Python's TypeError when sorting mixed-type timestamps is not modelled.
- IncidentStore.SortByTimestampDescending: Python's stable sort keeps equal timestamps in scan order; the contract does not state stability.
- IncidentStore.IncidentData: a key that is present with the value None is not told apart from other values.
- boto3 client creation and the presigning call are left out. The client is a function parameter, and its exceptions are `None`. The print-and-reraise wrappers become error results.
- S3.S3Service.constructor: requires a complete configuration. The failing case is `S3.S3Service.Create`, since a Dafny constructor cannot fail.
- The map toggle (`showMap`) and all layout, styling and icons of the dashboard are left out.
- Dashboard.EmergencyDashboard.MouseMove: takes the pointer position already converted to a percentage of `window.innerWidth`. The division and a possible NaN are left out, and the widths are exact reals rather than doubles.
- Dashboard.EmergencyDashboard.MouseDown and MouseUp: registering and removing the document event listeners is left out.
- The `alert` dialogs are returned as strings.
- `Math.random()` in the sample frames is a given sequence of seconds below 60.
- `toLocaleString()` of the incident timestamp is left out, because its text depends on the locale.
- PastIncidents.Title: counts Unicode code points, whereas JavaScript's `slice(0, 8)` counts UTF-16 code units. The two differ only for ids with characters outside the Basic Multilingual Plane. Ids are ASCII uuid4 strings (backend/app/services/dynamodb_service.py:19).
- PastIncidents.Title: a non-string `incident_id` is taken to throw. An array id, which has a `slice` of its own, is not modelled.
- PastIncidents.RenderAnalysis, Badges and RenderIncident: an empty string left behind by `"" && …` is taken as showing nothing. A `-0` arrives as `Num(0)` and renders the same `0`. `NaN` cannot come from JSON.
- PastIncidents.RenderList: React's warnings for duplicate or missing `key`s are left out.
- PastIncidents.PastIncidentsModal: after a render crashes, React unmounts the tree. The model keeps the state, and its methods still apply to it.
- PastIncidents.PastIncidentsModal.CompleteFetch: the messages for a null or undefined body are V8's wording; `response.json()` never yields undefined, so that case does not arise from a real fetch. Malformed JSON is part of `Thrown`. `console.error` is left out.
- The close button (`onOpenChange(false)`) is left out; it acts through the parent's `open` prop, which is `SetOpen`.
- backend/app/main.py, bedrock.py and the UI card component are not part of this model.

## Findings

| source | as written | input that shows it | evidently intended | confidence | as-written member | corrected member |
|---|---|---|---|---|---|---|
| backend/app/services/analysis_service.py:99 | the report text calls `time.strftime`, but `time` is never imported (lines 1-6), so every list of label strings ends in a NameError after the dict is built | any list of label strings, e.g. `[]` | a report is returned for every list of label strings, with the counted fields | high (not executed) | Analysis.GenerateIncidentReportNeverSucceeds | Analysis.ReportFields |

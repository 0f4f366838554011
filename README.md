# YouTube transcript-to-notes app, modelled in Dafny

The app takes a YouTube link, extracts the 11-character video ID with one
regular expression, fetches the transcript segments for that ID, joins their
texts with single spaces, and sends a fixed prompt followed by the transcript
to a generative model. A thumbnail preview is shown for any non-empty link
that yields an ID. This project models that pipeline as pure functions and
proves what each step promises.

- `wrappers.dfy` (`Wrappers`): `Option` and `Result`; a `Result` error carries the message of the Python exception.
- `video_id.dfy` (`VideoId`): `get_video_id`. The `re.search` for `(?:v=|\/)([0-9A-Za-z_-]{11})` is an explicit scan. `SearchFrom` tries each start position from left to right. `TryAt` tries `v=` and then `/` at one position. `QueryIdAt` and `PathIdAt` are the two alternatives. `IdCharsFrom` checks the eleven characters one at a time against `IsIdChar`, the class `[0-9A-Za-z_-]`: the ASCII ranges plus a literal `_` and `-`. The scan is proved against a declarative definition of a match: `MatchesAt`, `MatchStartsAt` and `NoMatchIn`.
- `transcript.dfy` (`Transcript`): the segment texts and `" ".join`, proved against `TotalLength` and `Offset`, which give each text's position in the result.
- `notes.dfy` (`Notes`): the fetch outcome, `extract_transcript_details`, the request sent to the model, the button branch, the thumbnail preview, and one run of the script (`Interaction`).

The transcript service becomes a parameter `fetch: string -> FetchOutcome`. Its
outcomes are `Segments`, `TranscriptsDisabled`, `NoTranscriptFound` and
`OtherError(message)`. The generative model becomes a parameter
`model: Request -> string`. Both are total functions, so the model says
nothing about how they behave.

Three behaviours of the code are easy to misread, and the model follows the code in each:
- An invalid link shows the warning `Invalid YouTube URL entered.` in the preview. Pressing the button still calls `extract_transcript_details`. Its `ValueError` is caught by the generic handler, so the screen shows `Unexpected error: Invalid YouTube URL` and then the no-summary warning. The service is never called (`InvalidUrlNeverFetches`).
- An empty link shows no preview and no warning. Pressing the button gives the same unexpected-error path (`EmptyLinkPressed`).
- "A URL containing `v=` plus eleven ID characters yields those characters" holds exactly when the leftmost match captures those same characters. A match is a `v=` or a `/` followed by eleven ID characters. In particular the claim holds when no earlier match captures different characters (`GetVideoIdLeftmost`, `EarlierPathSegmentWins`, `EarlierQueryWins`).

## Model

| member | source | states |
|---|---|---|
| VideoId.IdCharsFrom | app.py:21 | true exactly when `n` characters follow position `j` and each is in `[0-9A-Za-z_-]` |
| VideoId.TryAt | app.py:21 | at one start position: returns an ID only if a match starts there and captures it; returns nothing only if no match starts there |
| VideoId.MatchFoundByChecks | app.py:21 | any match starting at a position is found by the `v=` check or the `/` check |
| VideoId.SearchFrom | app.py:21 | `re.search` from position `i`: what it returns is a match with no match between `i` and its start; `None` means no match starts at or after `i` |
| VideoId.Search | app.py:21 | the match returned is the leftmost one in the whole URL; `None` exactly when no position of the URL starts a match |
| VideoId.GetVideoId | app.py:20-24 | on success the ID has length 11 and only characters of `[0-9A-Za-z_-]`, follows `v=` or `/` at a match start, and no match starts earlier; it fails with "Invalid YouTube URL" if and only if no position matches |
| VideoId.MatchUnique | app.py:21 | a match at a given start position captures exactly one ID (`v` and `/` cannot both begin there) |
| VideoId.GetVideoIdLeftmost | app.py:20-23 | if a match capturing `id` starts at `p` and none starts earlier, the result is exactly `id` |
| VideoId.MarkerNeeded | app.py:21 | no match starts at a character other than `v` or `/` |
| VideoId.BlockedAfter | app.py:21 | no match starts at a non-`v` position with a non-ID character within the next eleven characters |
| VideoId.UnmarkedNoMatch | app.py:21 | no match starts in a stretch with no `v` and no `/` |
| VideoId.UnmarkedUrlFails | app.py:21-24 | a URL with no `v` and no `/` fails with the invalid-URL error |
| VideoId.LongRunYieldsPrefix | app.py:21 | the pattern is unanchored on the right: `v=` followed by a longer run of ID characters yields its first eleven |
| VideoId.SchemeNoMatch | app.py:21 | no match starts inside `https://` when the fourth character after `https://` is not an ID character |
| VideoId.WatchPrefixNoMatch | app.py:21 | no match starts before the `v=` of `https://www.youtube.com/watch?` |
| VideoId.WatchUrlYieldsId | app.py:20-23 | `https://www.youtube.com/watch?v=` + id + anything yields id, for every valid 11-character id |
| VideoId.WatchUrlExample | app.py:20-23 | `https://www.youtube.com/watch?v=dQw4w9WgXcQ` yields `dQw4w9WgXcQ` |
| VideoId.EarlierPathSegmentWins | app.py:21 | `/` + eleven ID characters before a `?v=` parameter yields the path segment, not the parameter |
| VideoId.EarlierQueryWins | app.py:21 | of two `v=` parameters, each followed by eleven ID characters, the first one's ID is returned |
| Transcript.Join | app.py:31 | an empty list joins to `""`; for n ≥ 1 texts the length is the sum of the text lengths plus n − 1 |
| Transcript.Texts | app.py:31 | one text per segment, in order, each the segment's `text` (timing dropped) |
| Transcript.OffsetTail | app.py:31 | a later text's offset is the head's length, plus one space, plus its offset in the tail |
| Transcript.JoinHead | app.py:31 | the joined string begins with the first text |
| Transcript.JoinSegmentAt | app.py:31 | every text appears unchanged at its offset (earlier texts plus one space each), and every text after the first is preceded by a single space |
| Transcript.JoinEmptyIff | app.py:31 | the join is empty exactly when there are no texts, or a single empty one |
| Transcript.JoinAppend | app.py:31 | joining two non-empty lists puts exactly one space between their joins |
| Transcript.TranscriptText | app.py:31 | `Join` applied to `Texts`: every segment's text appears unchanged and in order at its offset, each after the first preceded by one space, and the length is the sum of the text lengths plus n − 1 (no segments give `""`); further join laws are `JoinSegmentAt`, `JoinAppend` and `JoinEmptyIff` |
| Transcript.JoinAllSegments | app.py:31 | `JoinSegmentAt` for every text of the list at once |
| Transcript.TwoSegmentsExample | app.py:30-31 | segments with texts "a" and "b" give "a b" |
| Notes.ThumbnailUrl | app.py:53 | the image URL is `http://img.youtube.com/vi/`, then the ID, then `/0.jpg`, with nothing else |
| Notes.PreviewFor | app.py:50-55 | no preview exactly for the empty link; a thumbnail exactly when the link is non-empty and an ID is extracted, with that ID's URL; otherwise the warning "Invalid YouTube URL entered." |
| Notes.ThumbnailPrefixNoMatch | app.py:21 | no match starts in the fixed part `http://img.youtube.com/vi` of a thumbnail URL |
| Notes.ThumbnailRoundTrip | app.py:21-23 | extracting from the thumbnail URL of a valid ID gives that ID back |
| Notes.ExtractTranscriptDetails | app.py:27-38 | an invalid URL gives no transcript and the message "Unexpected error: Invalid YouTube URL"; a transcript comes back exactly when an ID is extracted and the fetch returns segments, and it is their join; disabled or missing transcripts give "Transcript not available for this video."; other fetch errors give "Unexpected error: " and their message |
| Notes.GeminiRequest | app.py:41-44 | the request goes to `gemini-pro` and its contents are the prompt followed by the transcript, unmodified |
| Notes.DetailedNotes | app.py:57-64 | the model is asked exactly when a transcript came back and is non-empty; the request is the prompt plus the transcript and the summary is the model's answer to it; otherwise no summary and the warning "Cannot generate summary without transcript.", with the transcript error when there was one |
| Notes.Interaction | app.py:47-64 | the preview is the one for the entered link; there is a notes outcome exactly when the button was pressed, and it is the notes branch for that same link |
| Notes.InvalidUrlNeverFetches | app.py:27-38 | for a link that yields no ID, the outcome is the same whatever the service would return, and summarization is skipped with the unexpected-error message |
| Notes.EmptyLinkPressed | app.py:50-64 | an empty link shows no preview; pressing the button gives no summary and the unexpected-error message |
| Notes.SummarizedIff | app.py:27-60 | the model is asked exactly when the link yields an ID, the service returns segments, and they are neither empty nor a single empty text; the request is then the prompt followed by the joined transcript |
| Notes.EchoNotes | app.py:27-62 | with a one-segment "hello world" transcript and an echoing model, the request and the summary are both the prompt followed by "hello world" |
| Notes.ExampleThumbnail | app.py:53 | the thumbnail of `dQw4w9WgXcQ` is `http://img.youtube.com/vi/dQw4w9WgXcQ/0.jpg` |
| Notes.EchoExample | app.py:47-64 | end to end for the standard watch URL: the thumbnail above, and a summary that is the prompt followed by "hello world" |

## Left out

- Streamlit calls (`st.title`, `st.text_input`, `st.image`, `st.button`, `st.error`, `st.warning`, `st.markdown`, `st.write`) are UI side effects. The model records only which branch is taken and the error and warning texts and the thumbnail URL these calls would show; the page title and the "## Detailed Notes:" heading are fixed text and are not modelled.
- `load_dotenv`, `os.getenv` and `genai.configure` read the environment and configure a client. They are configuration I/O and are not modelled.
- `YouTubeTranscriptApi.get_transcript` is a network call into a library outside this repository. It is the `fetch` parameter, and its exceptions are the `FetchOutcome` variants.
- `generate_content` is an external model call. It is the `model` parameter. Its failures propagate uncaught in the app and are not modelled.
- Python's general regular-expression engine and exception hierarchy are not modelled. Only the one fixed pattern is modelled, and errors are datatype values with their messages.
- Segment start times and durations are carried in `Segment` but take no part in any result, as in the app.

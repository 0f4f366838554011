/**
 * The pipeline of the app: the thumbnail preview shown for a non-empty link,
 * `extract_transcript_details` with the transcript service abstracted as a
 * function from video ID to fetch outcome, and the "Get Detailed Notes"
 * branch that sends `prompt + transcript_text` to the generative model only
 * when the transcript is truthy (non-empty).
 */
module Notes {
  import opened Wrappers
  import opened VideoId
  import opened Transcript

  /** The fixed summarization instruction; the triple-quoted literal keeps its line break and two trailing spaces. */
  const Prompt: string :=
    "You are a YouTube video summarizer. You will summarize the transcript text\n"
    + "and provide the important points in under 250 words. Please provide the summary of the text given here:  "

  /** The generative model the request is addressed to. */
  const ModelName: string := "gemini-pro"

  const NotAvailableMessage: string := "Transcript not available for this video."
  const UnexpectedErrorPrefix: string := "Unexpected error: "
  const NoSummaryWarning: string := "Cannot generate summary without transcript."
  const InvalidLinkWarning: string := "Invalid YouTube URL entered."

  const ThumbnailPrefix: string := "http://img.youtube.com/vi/"
  const ThumbnailSuffix: string := "/0.jpg"

  /** What the transcript service does for a video ID: return segments, or raise one of its exceptions. */
  datatype FetchOutcome =
    | Segments(segments: seq<Segment>)
    | TranscriptsDisabled
    | NoTranscriptFound
    | OtherError(message: string)

  /** What `extract_transcript_details` returns: the transcript, or `None` together with the error it displayed. */
  datatype TranscriptOutcome = Fetched(text: string) | NoTranscript(error: string)

  /** A `generate_content` call: the model it goes to and the text it carries. */
  datatype Request = Request(model: string, contents: string)

  /** The notes branch: the model was asked and answered, or summarization was skipped with a warning after any error shown. */
  datatype NotesOutcome =
    | Summarized(request: Request, summary: string)
    | NoSummary(error: Option<string>, warning: string)

  /** The preview above the button: nothing for an empty link, a thumbnail, or the invalid-URL warning. */
  datatype Preview = NoPreview | Thumbnail(imageUrl: string) | InvalidUrlWarning(warning: string)

  /** One run of the script: the preview, and the notes branch when the button was pressed. */
  datatype Screen = Screen(preview: Preview, notes: Option<NotesOutcome>)

  /** The thumbnail image URL for a video ID. */
  function ThumbnailUrl(id: string): (u: string)
    ensures |u| == |ThumbnailPrefix| + |id| + |ThumbnailSuffix|
    ensures u[..|ThumbnailPrefix|] == ThumbnailPrefix
    ensures u[|ThumbnailPrefix|..|u| - |ThumbnailSuffix|] == id
    ensures u[|u| - |ThumbnailSuffix|..] == ThumbnailSuffix
  {
    ThumbnailPrefix + id + ThumbnailSuffix
  }

  /** The `if youtube_link:` block: a thumbnail exactly when the link is non-empty and an ID is extracted. */
  function PreviewFor(link: string): (p: Preview)
    ensures p.NoPreview? <==> link == ""
    ensures p.Thumbnail? <==> link != "" && GetVideoId(link).Ok?
    ensures p.Thumbnail? ==> p.imageUrl == ThumbnailUrl(GetVideoId(link).value)
    ensures p.InvalidUrlWarning? ==> p.warning == InvalidLinkWarning
  {
    if link == "" then NoPreview
    else match GetVideoId(link)
      case Ok(id) => Thumbnail(ThumbnailUrl(id))
      case Err(_) => InvalidUrlWarning(InvalidLinkWarning)
  }

  /**
   * `extract_transcript_details`: an invalid URL raises inside the `try` and is
   * caught by the generic handler; disabled or missing transcripts give the
   * not-available error; any other fetch error is reported with its message.
   */
  function ExtractTranscriptDetails(url: string, fetch: string -> FetchOutcome): (r: TranscriptOutcome)
    ensures GetVideoId(url).Err? ==> r == NoTranscript(UnexpectedErrorPrefix + InvalidUrlMessage)
    ensures r.Fetched? <==> GetVideoId(url).Ok? && fetch(GetVideoId(url).value).Segments?
    ensures r.Fetched? ==> r.text == TranscriptText(fetch(GetVideoId(url).value).segments)
    ensures GetVideoId(url).Ok? ==>
              var outcome := fetch(GetVideoId(url).value);
              (outcome.TranscriptsDisabled? || outcome.NoTranscriptFound? ==> r == NoTranscript(NotAvailableMessage)) &&
              (outcome.OtherError? ==> r == NoTranscript(UnexpectedErrorPrefix + outcome.message))
  {
    match GetVideoId(url)
    case Err(message) => NoTranscript(UnexpectedErrorPrefix + message)
    case Ok(id) =>
      match fetch(id)
      case Segments(segments) => Fetched(TranscriptText(segments))
      case TranscriptsDisabled => NoTranscript(NotAvailableMessage)
      case NoTranscriptFound => NoTranscript(NotAvailableMessage)
      case OtherError(message) => NoTranscript(UnexpectedErrorPrefix + message)
  }

  /** The request `generate_gemini_content` sends: the prompt followed by the transcript, unmodified. */
  function GeminiRequest(transcriptText: string, prompt: string): (q: Request)
    ensures q.model == ModelName
    ensures |q.contents| == |prompt| + |transcriptText|
    ensures q.contents[..|prompt|] == prompt && q.contents[|prompt|..] == transcriptText
  {
    Request(ModelName, prompt + transcriptText)
  }

  /** The button branch: summarize only a truthy transcript; otherwise warn, after any error already shown. */
  function DetailedNotes(link: string, fetch: string -> FetchOutcome, model: Request -> string): (n: NotesOutcome)
    ensures var t := ExtractTranscriptDetails(link, fetch);
            (n.Summarized? <==> t.Fetched? && t.text != "") &&
            (n.Summarized? ==> n.request == Request(ModelName, Prompt + t.text) && n.summary == model(n.request)) &&
            (t.NoTranscript? ==> n == NoSummary(Some(t.error), NoSummaryWarning)) &&
            (t.Fetched? && t.text == "" ==> n == NoSummary(None, NoSummaryWarning))
  {
    match ExtractTranscriptDetails(link, fetch)
    case Fetched(text) =>
      if text != "" then
        var request := GeminiRequest(text, Prompt);
        Summarized(request, model(request))
      else
        NoSummary(None, NoSummaryWarning)
    case NoTranscript(error) => NoSummary(Some(error), NoSummaryWarning)
  }

  /** One run of the script for the current link and button state. */
  function Interaction(link: string, pressed: bool, fetch: string -> FetchOutcome, model: Request -> string): (s: Screen)
    ensures s.preview == PreviewFor(link)
    ensures s.notes.Some? <==> pressed
    ensures pressed ==> s.notes == Some(DetailedNotes(link, fetch, model))
  {
    Screen(PreviewFor(link), if pressed then Some(DetailedNotes(link, fetch, model)) else None)
  }

  /** An invalid link never reaches the transcript service: the outcome is the same whatever the service would do. */
  lemma InvalidUrlNeverFetches(link: string, f: string -> FetchOutcome, g: string -> FetchOutcome, model: Request -> string)
    requires GetVideoId(link).Err?
    ensures ExtractTranscriptDetails(link, f) == ExtractTranscriptDetails(link, g)
    ensures DetailedNotes(link, f, model) == NoSummary(Some(UnexpectedErrorPrefix + InvalidUrlMessage), NoSummaryWarning)
  {
  }

  /**
   * An empty link shows no preview, yet pressing the button still runs the
   * extraction, which fails inside the `try` and is reported as an unexpected error.
   */
  lemma EmptyLinkPressed(fetch: string -> FetchOutcome, model: Request -> string)
    ensures Interaction("", true, fetch, model)
              == Screen(NoPreview, Some(NoSummary(Some(UnexpectedErrorPrefix + InvalidUrlMessage), NoSummaryWarning)))
  {
    UnmarkedUrlFails("");
  }

  /**
   * In terms of the fetched segments: the model is asked exactly when the link
   * yields an ID, the service returns segments, and those are neither empty nor a
   * single segment with empty text; the request then carries `prompt + transcript`.
   */
  lemma SummarizedIff(link: string, fetch: string -> FetchOutcome, model: Request -> string)
    ensures DetailedNotes(link, fetch, model).Summarized? <==>
              GetVideoId(link).Ok? && fetch(GetVideoId(link).value).Segments? &&
              var segments := fetch(GetVideoId(link).value).segments;
              !(|segments| == 0 || (|segments| == 1 && segments[0].text == ""))
    ensures DetailedNotes(link, fetch, model).Summarized? ==>
              DetailedNotes(link, fetch, model).request.contents
                == Prompt + TranscriptText(fetch(GetVideoId(link).value).segments)
  {
    if GetVideoId(link).Ok? && fetch(GetVideoId(link).value).Segments? {
      var segments := fetch(GetVideoId(link).value).segments;
      JoinEmptyIff(Texts(segments));
    }
  }

  /** The fixed part of a thumbnail URL holds no match: every `/` and the `v` of `vi/` is followed by a non-ID character. */
  lemma ThumbnailPrefixNoMatch(tail: string)
    ensures NoMatchIn(ThumbnailPrefix + tail, 0, |ThumbnailPrefix| - 1)
  {
    var url := ThumbnailPrefix + tail;
    UnmarkedNoMatch(url, 0, 5);
    BlockedAfter(url, 5, 6);
    BlockedAfter(url, 6, 10);
    UnmarkedNoMatch(url, 7, 22);
    BlockedAfter(url, 22, 25);
    MatchFoundByChecks(url, 23);
    UnmarkedNoMatch(url, 24, 25);
  }

  /** The thumbnail URL extracts back to the ID it was built from. */
  lemma ThumbnailRoundTrip(id: string)
    requires |id| == IdLength && AllIdChars(id)
    ensures GetVideoId(ThumbnailUrl(id)) == Ok(id)
  {
    var url := ThumbnailPrefix + (id + ThumbnailSuffix);
    assert url == ThumbnailUrl(id);
    ThumbnailPrefixNoMatch(id + ThumbnailSuffix);
    assert ("/" + id) == url[25..][..1 + IdLength];
    GetVideoIdLeftmost(url, 25, id);
  }

  /** The notes branch for a link that yields an ID, a service returning one "hello world" segment and an echoing model. */
  lemma EchoNotes(link: string, fetch: string -> FetchOutcome, model: Request -> string, s: real, d: real)
    requires GetVideoId(link).Ok?
    requires forall id :: fetch(id) == Segments([Segment("hello world", s, d)])
    requires forall q :: model(q) == q.contents
    ensures DetailedNotes(link, fetch, model)
              == Summarized(Request(ModelName, Prompt + "hello world"), Prompt + "hello world")
  {
    assert TranscriptText([Segment("hello world", s, d)]) == "hello world" by {
      assert Texts([Segment("hello world", s, d)]) == ["hello world"];
    }
    assert ExtractTranscriptDetails(link, fetch) == Fetched("hello world");
  }

  /** The thumbnail URL of the example video. */
  lemma ExampleThumbnail()
    ensures ThumbnailUrl("dQw4w9WgXcQ") == "http://img.youtube.com/vi/dQw4w9WgXcQ/0.jpg"
  {
  }

  /**
   * End to end: the standard watch URL with a mocked one-segment transcript
   * "hello world" and a model that echoes its input shows the thumbnail and a
   * summary that is the prompt followed by the transcript.
   */
  lemma EchoExample(fetch: string -> FetchOutcome, model: Request -> string, s: real, d: real)
    requires forall id :: fetch(id) == Segments([Segment("hello world", s, d)])
    requires forall q :: model(q) == q.contents
    ensures Interaction("https://www.youtube.com/watch?v=dQw4w9WgXcQ", true, fetch, model)
              == Screen(Thumbnail("http://img.youtube.com/vi/dQw4w9WgXcQ/0.jpg"),
                        Some(Summarized(Request(ModelName, Prompt + "hello world"), Prompt + "hello world")))
  {
    var link := "https://www.youtube.com/watch?v=dQw4w9WgXcQ";
    WatchUrlExample();
    ExampleThumbnail();
    EchoNotes(link, fetch, model, s, d);
  }
}

/** The processing run behind the "Start Process" button: extract the resume
    text, score it, have the generation service rewrite it, score the rewrite,
    have the service write a cover letter, and only then store the four results
    in the session; and the rule that decides when the stored results are shown.
    The document parser and the generation service are parameters. */
module Pipeline {
  import opened Text
  import opened MatchScore
  import opened LineCodec

  datatype Option<T> = None | Some(value: T)

  /** The failures that abort a run. */
  datatype Error =
    | FormatError      // the upload is not a readable word-processing document
    | AuthError        // the service rejected the API key
    | TransportError   // the service could not be reached
    | QuotaError       // the service refused the request for rate or quota
    | ResponseError    // the response has no first completion with text content

  datatype Result<T> = Ok(value: T) | Err(error: Error)

  /** The four choices of the cover-letter tone selector; Professional is preselected. */
  datatype Tone = Professional | Casual | Creative | IndustrySpecific

  /** An uploaded file as the uploader hands it over. */
  datatype Upload = Upload(name: string, content: seq<bv8>)

  /** What the service is asked for; the prompt templates around these
      values are fixed text. */
  datatype Task =
    | RewriteResume(resume: string, job: string)
    | WriteCoverLetter(job: string, resume: string, tone: Tone)

  /** One chat-completion request: model, task, token cap and temperature. */
  datatype Request = Request(model: string, task: Task, maxTokens: nat, temperature: real)

  const ModelName: string := "llama3-8b-8192"

  /** The request of generate_updated_resume. */
  function ResumeRequest(resume: string, job: string): Request {
    Request(ModelName, RewriteResume(resume, job), 1500, 0.7)
  }

  /** The request of generate_cover_letter. */
  function LetterRequest(job: string, resume: string, tone: Tone): Request {
    Request(ModelName, WriteCoverLetter(job, resume, tone), 1000, 0.7)
  }

  /** docx.Document(file): the texts of the document's paragraphs, or FormatError. */
  type Parser = Upload -> Result<seq<string>>

  /** The remote call: the message content of every choice of the response
      (None for a choice whose content is missing), or the transport, credential
      or quota failure it raised. */
  type Service = Request -> Result<seq<Option<string>>>

  /** extract_text_from_docx: the paragraph texts joined with "\n". */
  function ExtractText(parse: Parser, upload: Upload): Result<string> {
    match parse(upload)
    case Err(e) => Err(e)
    case Ok(paragraphs) => Ok(Join(paragraphs))
  }

  /** response.choices[0].message.content.strip() */
  function Generate(service: Service, request: Request): Result<string> {
    match service(request)
    case Err(e) => Err(e)
    case Ok(choices) =>
      if |choices| == 0 || choices[0].None? then Err(ResponseError)
      else Ok(Strip(choices[0].value))
  }

  /** A generation succeeds exactly when the service answers with a first choice
      that has content; the text is then that content with a whitespace prefix
      and a whitespace suffix removed, no whitespace left at either end, and
      empty only when the content is all whitespace. A service
      failure is passed on as it is, and a response without a usable first
      choice is a ResponseError, never an empty text. */
  lemma GenerateSpec(service: Service, request: Request)
    ensures Generate(service, request).Ok?
        <==> service(request).Ok? && |service(request).value| > 0 && service(request).value[0].Some?
    ensures service(request).Err? ==> Generate(service, request) == Err(service(request).error)
    ensures service(request).Ok? && Generate(service, request).Err?
        ==> Generate(service, request) == Err(ResponseError)
    ensures Generate(service, request).Ok? ==>
        var text := Generate(service, request).value;
        Trimmed(text) && (text == "" <==> AllSpace(service(request).value[0].value))
    ensures Generate(service, request).Ok? ==>
        exists p, q :: AllSpace(p) && AllSpace(q)
          && service(request).value[0].value == p + Generate(service, request).value + q
  {
    match service(request)
    case Err(_) =>
    case Ok(choices) =>
      if |choices| > 0 && choices[0].Some? {
        StripTrimmed(choices[0].value);
        StripPadding(choices[0].value);
      }
  }

  /** The four values a successful run stores. */
  datatype Outputs = Outputs(updatedResume: string, coverLetter: string, preMatch: Ratio, postMatch: Ratio)

  /** Lines 104-108 as one value: the outputs of a run, or the error of its
      first failing step; the cover letter is written from the rewritten resume. */
  function Run(parse: Parser, service: Service, upload: Upload, job: string, tone: Tone): Result<Outputs> {
    match ExtractText(parse, upload)
    case Err(e) => Err(e)
    case Ok(resume) =>
      var pre := Score(resume, job);
      match Generate(service, ResumeRequest(resume, job))
      case Err(e) => Err(e)
      case Ok(updated) =>
        var post := Score(updated, job);
        match Generate(service, LetterRequest(job, updated, tone))
        case Err(e) => Err(e)
        case Ok(letter) => Ok(Outputs(updated, letter, pre, post))
  }

  /** What a successful run stores: the scores of the uploaded and of the
      rewritten resume, both between 0 and 100, the trimmed rewrite, and the
      trimmed cover letter the service wrote from the rewrite. */
  lemma RunOutputs(parse: Parser, service: Service, upload: Upload, job: string, tone: Tone)
    requires Run(parse, service, upload, job, tone).Ok?
    ensures var out := Run(parse, service, upload, job, tone).value;
      && parse(upload).Ok?
      && Generate(service, ResumeRequest(Join(parse(upload).value), job)) == Ok(out.updatedResume)
      && Generate(service, LetterRequest(job, out.updatedResume, tone)) == Ok(out.coverLetter)
      && out.preMatch == Score(Join(parse(upload).value), job)
      && out.postMatch == Score(out.updatedResume, job)
      && out.preMatch.num <= 100 * out.preMatch.den
      && out.postMatch.num <= 100 * out.postMatch.den
      && Trimmed(out.updatedResume) && Trimmed(out.coverLetter)
  {
    var out := Run(parse, service, upload, job, tone).value;
    var resume := Join(parse(upload).value);
    ScoreBounds(resume, job);
    ScoreBounds(out.updatedResume, job);
    GenerateSpec(service, ResumeRequest(resume, job));
    GenerateSpec(service, LetterRequest(job, out.updatedResume, tone));
  }

  // -----------------------------------------------------------------------
  // Session state

  /** A session-state value: one of the two texts or one of the two scores. */
  datatype Value = TextEntry(text: string) | MatchEntry(ratio: Ratio)

  const UpdatedResumeKey: string := "updated_resume_text"
  const CoverLetterKey: string := "cover_letter_text"
  const PreMatchKey: string := "pre_update_match"
  const PostMatchKey: string := "post_update_match"

  /** The session after the four writes of lines 111-114. */
  function Commit(entries: map<string, Value>, out: Outputs): map<string, Value> {
    entries[UpdatedResumeKey := TextEntry(out.updatedResume)]
           [CoverLetterKey := TextEntry(out.coverLetter)]
           [PreMatchKey := MatchEntry(out.preMatch)]
           [PostMatchKey := MatchEntry(out.postMatch)]
  }

  /** A commit replaces all four result fields by the new outputs and leaves
      every other key of the session as it was. */
  lemma CommitWritesAll(entries: map<string, Value>, out: Outputs)
    ensures Commit(entries, out).Keys == entries.Keys + {UpdatedResumeKey, CoverLetterKey, PreMatchKey, PostMatchKey}
    ensures Commit(entries, out)[UpdatedResumeKey] == TextEntry(out.updatedResume)
    ensures Commit(entries, out)[CoverLetterKey] == TextEntry(out.coverLetter)
    ensures Commit(entries, out)[PreMatchKey] == MatchEntry(out.preMatch)
    ensures Commit(entries, out)[PostMatchKey] == MatchEntry(out.postMatch)
    ensures forall k :: k in entries && k !in {UpdatedResumeKey, CoverLetterKey, PreMatchKey, PostMatchKey}
                ==> Commit(entries, out)[k] == entries[k]
  {
  }

  /** st.session_state.get(key, '') */
  function TextOr(entries: map<string, Value>, key: string): string {
    if key in entries && entries[key].TextEntry? then entries[key].text else ""
  }

  /** st.session_state.get(key, 0) */
  function MatchOr(entries: map<string, Value>, key: string): Ratio {
    if key in entries && entries[key].MatchEntry? then entries[key].ratio else Ratio(0, 1)
  }

  /** What the page shows below the button. */
  datatype Display =
    | NoResults
    | Results(preMatch: Ratio, postMatch: Ratio, updatedResume: string, coverLetter: string)

  /** Lines 119-124: the stored results are shown only when both stored texts are non-empty. */
  function View(entries: map<string, Value>): Display {
    var resume := TextOr(entries, UpdatedResumeKey);
    var letter := TextOr(entries, CoverLetterKey);
    if resume != "" && letter != "" then
      Results(MatchOr(entries, PreMatchKey), MatchOr(entries, PostMatchKey), resume, letter)
    else
      NoResults
  }

  /** A new session shows no results. */
  lemma ViewOfNewSession()
    ensures View(map[]) == NoResults
  {
  }

  /** After a commit the page shows exactly the committed outputs, or nothing
      when one of the two texts is empty: nothing from an earlier run mixes in. */
  lemma ViewAfterCommit(entries: map<string, Value>, out: Outputs)
    ensures View(Commit(entries, out))
        == if out.updatedResume != "" && out.coverLetter != "" then
             Results(out.preMatch, out.postMatch, out.updatedResume, out.coverLetter)
           else NoResults
  {
    CommitWritesAll(entries, out);
  }

  /** After a successful run the results are shown exactly when neither the
      rewrite's nor the cover letter's first choice is all whitespace. */
  lemma ShownAfterRun(entries: map<string, Value>, parse: Parser, service: Service,
                      upload: Upload, job: string, tone: Tone)
    requires Run(parse, service, upload, job, tone).Ok?
    ensures var out := Run(parse, service, upload, job, tone).value;
      var resume := Join(parse(upload).value);
      View(Commit(entries, out)).Results? <==>
        (!AllSpace(service(ResumeRequest(resume, job)).value[0].value) &&
         !AllSpace(service(LetterRequest(job, out.updatedResume, tone)).value[0].value))
  {
    var out := Run(parse, service, upload, job, tone).value;
    var resume := Join(parse(upload).value);
    RunOutputs(parse, service, upload, job, tone);
    GenerateSpec(service, ResumeRequest(resume, job));
    GenerateSpec(service, LetterRequest(job, out.updatedResume, tone));
    ViewAfterCommit(entries, out);
  }

  /** st.session_state: the key-value store that survives the page's re-runs. */
  class Session {
    var entries: map<string, Value>

    constructor ()
      ensures entries == map[]
    {
      entries := map[];
    }

    /** st.session_state[key] = value */
    method Set(key: string, value: Value)
      modifies this
      ensures entries == old(entries)[key := value]
    {
      entries := entries[key := value];
    }
  }

  /** How one press of the button ends. */
  datatype Status = NotStarted | Completed | Failed(error: Error)

  /** The button is enabled only with a file uploaded and a non-empty job description. */
  predicate Enabled(upload: Option<Upload>, job: string) {
    upload.Some? && job != ""
  }

  /** Lines 102-114: when the button is pressed while enabled, run the steps in
      order and write the four session fields only once every step has produced
      its value; a failing step ends the run with its error and leaves the
      session as it was. */
  method StartProcess(session: Session, parse: Parser, service: Service, pressed: bool,
                      upload: Option<Upload>, job: string, tone: Tone)
    returns (status: Status)
    modifies session
    ensures !(pressed && Enabled(upload, job)) ==> status == NotStarted && session.entries == old(session.entries)
    ensures pressed && Enabled(upload, job) ==>
      match Run(parse, service, upload.value, job, tone)
      case Ok(out) => status == Completed && session.entries == Commit(old(session.entries), out)
      case Err(e) => status == Failed(e) && session.entries == old(session.entries)
  {
    if !(pressed && Enabled(upload, job)) {
      return NotStarted;
    }
    var extracted := ExtractText(parse, upload.value);
    if extracted.Err? {
      return Failed(extracted.error);
    }
    var resumeText := extracted.value;
    var preUpdateMatch := Score(resumeText, job);
    var rewritten := Generate(service, ResumeRequest(resumeText, job));
    if rewritten.Err? {
      return Failed(rewritten.error);
    }
    var updatedResumeText := rewritten.value;
    var postUpdateMatch := Score(updatedResumeText, job);
    var letter := Generate(service, LetterRequest(job, updatedResumeText, tone));
    if letter.Err? {
      return Failed(letter.error);
    }
    var coverLetterText := letter.value;
    session.Set(UpdatedResumeKey, TextEntry(updatedResumeText));
    session.Set(CoverLetterKey, TextEntry(coverLetterText));
    session.Set(PreMatchKey, MatchEntry(preUpdateMatch));
    session.Set(PostMatchKey, MatchEntry(postUpdateMatch));
    status := Completed;
  }
}

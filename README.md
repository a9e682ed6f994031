# Resume-Perfect core, modelled in Dafny

Resume-Perfect is a small Streamlit page. A user uploads a resume as a Word
document and pastes a job description. The page then asks a hosted language
model to rewrite the resume toward the job and to write a cover letter in one
of four tones. It also reports a keyword-overlap score of the resume against
the job, before and after the rewrite. This project models the parts of
`app.py` that are logic rather than wiring:

- **The match scorer** (`calculate_match_percentage`). Both texts are
  lower-cased and split on whitespace into token sets. The score is
  `|R ∩ J| / |J| × 100`, and 0 when the job description has no tokens. The
  model keeps this value exact as a `Ratio(num, den)`. Module `MatchScore`
  holds it; the string primitives it needs are in module `Text`.
- **The paragraph/line codec.** The extractor joins paragraph texts with
  `"\n"`. The writer splits a text on `"\n"` and adds one paragraph per
  piece, empty pieces included. Module `LineCodec` models the join, the
  split, and the writer's loop over a `Document` object that collects
  paragraphs.
- **The processing run and the session commit.** Pressing the button runs,
  in order: extraction, scoring, resume rewrite, scoring, then cover letter.
  Only after all of them succeed are the four results written to the
  session. Results are shown only when both stored texts are non-empty.
  Module `Pipeline` models this: `Run` is the run as a value, `StartProcess`
  is the imperative run over a `Session` object, and `View` decides what is
  rendered.

The document parser (`docx.Document`) and the remote chat-completion call are
parameters of the model: `Parser` and `Service`, both total functions.
`Service` returns each choice's message content (or `None`), or one of the
service's failures. `Generate` then models `choices[0].message.content.strip()`:
a missing first choice or missing content is a `ResponseError`, never an
empty text.

Modelling choices to know:

- Whitespace is the exact character set of Python's `str.isspace()`, which
  is what `str.split()` and `str.strip()` use.
- Lower-casing covers ASCII letters only.
- The score is exact. The Python code computes it in floating point and
  rounds to two decimals; the model does not.

## Model

| member | source | states |
|---|---|---|
| `Text.Lower` | app.py:78-79 | `lower()` keeps the length and maps each character on its own: ASCII capitals to small letters, everything else unchanged |
| `Text.Words` | app.py:78-79 | every token `str.split()` returns is non-empty and holds no whitespace |
| `Text.WordsConcat` | app.py:78-79 | splitting `a + c + b`, with `c` whitespace, gives the tokens of `a` followed by those of `b` |
| `Text.WordsEmptyIff` | app.py:79-80 | the split finds no token exactly when the text is all whitespace (the empty text included) |
| `Text.WordsKeepText` | app.py:78-79 | the tokens, concatenated, are exactly the text's non-whitespace characters in order |
| `Text.WordsOfJoin` | app.py:78-79 | splitting the single-space join of tokens gives those tokens back |
| `Text.LowerIdempotent` | app.py:78-79 | lower-casing twice is lower-casing once |
| `Text.SameUpToCaseLower` | app.py:78-79 | two texts lower-case to the same string exactly when they differ only in letter case |
| `Text.LowerJoinWords` | app.py:78-79 | lower-casing a single-space join lower-cases each joined part |
| `Text.Strip` | app.py:48 | `strip()` is defined as dropping leading, then trailing whitespace; what it promises is stated by `StripTrimmed`, `StripPadding` and `StripOfPadded` |
| `Text.StripTrimmed` | app.py:48 | `strip()` leaves no whitespace at either end, and its result is empty exactly when the input is all whitespace |
| `Text.StripPadding` | app.py:74 | the input is the stripped text with some whitespace before it and some whitespace after it |
| `Text.StripOfPadded` | app.py:74 | `strip()` removes exactly the surrounding whitespace: any text without whitespace at its ends, padded by whitespace, strips back to itself |
| `MatchScore.Tokens` | app.py:78-79 | the token set `set(text.lower().split())`; every member is a non-empty run of non-whitespace characters |
| `MatchScore.Score` | app.py:76-81 | the score is a ratio with a positive denominator, so nothing is ever divided by zero |
| `MatchScore.ScoreBounds` | app.py:80 | the score always lies between 0 and 100 percent |
| `MatchScore.ScoreOfBlankJob` | app.py:79-80 | a job description has no tokens exactly when it is all whitespace, and then the score is exactly 0 |
| `MatchScore.ScoreFullIff` | app.py:78-80 | the score is 100 exactly when the job description has a token and every job token occurs in the resume |
| `MatchScore.ScoreZeroIff` | app.py:80 | the score is 0 exactly when resume and job share no token |
| `MatchScore.ScoreCaseInsensitive` | app.py:78-79 | changing the letter case of either text leaves the score unchanged |
| `MatchScore.ScoreOfRecased` | app.py:78-79 | upper- or lower-casing either input leaves the score unchanged |
| `MatchScore.TokensConcat` | app.py:78-79 | the token set of two texts joined by a space is the union of their token sets |
| `MatchScore.ScoreOfSameTokens` | app.py:78-80 | the score depends only on the two token sets |
| `MatchScore.ScoreIgnoresRepetition` | app.py:78-79 | repeating a text, in either argument, leaves the score unchanged |
| `MatchScore.ScoreIgnoresOrder` | app.py:78-79 | swapping two parts of a text, in either argument, leaves the score unchanged |
| `MatchScore.ScoreMonotone` | app.py:80 | a resume whose tokens include another's scores at least as high, over the same denominator |
| `MatchScore.ScoreAddWords` | app.py:80 | adding words to the resume never lowers the score |
| `MatchScore.TokensOfJoin` | app.py:78-79 | the token set of a single-space join of words is the set of those words lower-cased |
| `MatchScore.ScoreOfExample` | app.py:76-81 | "Python Java SQL" against "Python SQL Go" scores exactly 200/3 (shown as 66.67) |
| `MatchScore.ScoreAsymmetric` | app.py:80 | "python" scores 50 against "python sql", while "python sql" scores 100 against "python" |
| `LineCodec.Join` | app.py:20 | `"\n".join(paragraphs)`: the paragraphs in order with one newline between neighbours; `JoinSplit` and `SplitJoin` relate it to the split |
| `LineCodec.Split` | app.py:86 | `split("\n")` always yields at least one piece, and no piece contains a newline |
| `LineCodec.JoinSplit` | app.py:20 | joining the pieces of a split with `"\n"` reproduces the text |
| `LineCodec.SplitLength` | app.py:86-87 | a split has exactly one more piece than the text has newlines |
| `LineCodec.SplitJoin` | app.py:20 | splitting the `"\n"`-join of newline-free paragraphs gives those paragraphs back |
| `LineCodec.Document.constructor` | app.py:85 | a new document has no paragraphs |
| `LineCodec.Document.AddParagraph` | app.py:87 | appends exactly one paragraph at the end and changes nothing else |
| `LineCodec.CreateWordDoc` | app.py:83-91 | the document gets one paragraph per line of the text, in order, empty lines included; there are newline-count + 1 of them, and joining them back gives the text |
| `Pipeline.ResumeRequest` | app.py:38-46 | the rewrite request: model "llama3-8b-8192", the resume and the job description, at most 1500 tokens, temperature 0.7 |
| `Pipeline.LetterRequest` | app.py:64-72 | the cover-letter request: model "llama3-8b-8192", the job description, the resume and the tone, at most 1000 tokens, temperature 0.7 |
| `Pipeline.ExtractText` | app.py:17-21 | the parsed paragraph texts joined with `"\n"`, or the parser's failure |
| `Pipeline.Generate` | app.py:38-48 | `choices[0].message.content.strip()` of the service's answer; what it promises is stated by `GenerateSpec` |
| `Pipeline.GenerateSpec` | app.py:38-48 | a generation succeeds exactly when the response has a first choice with content; the text is then that content with a whitespace prefix and a whitespace suffix removed, no whitespace left at its ends, and empty only if the content is all whitespace; service failures pass through and a missing choice is a ResponseError |
| `Pipeline.Run` | app.py:104-108 | the five steps in order, the cover letter written from the rewrite, ending at the first failing step's error; `RunOutputs` states what a success holds |
| `Pipeline.RunOutputs` | app.py:104-108 | a successful run stores the score of the extracted resume, the trimmed rewrite, its score, and the trimmed cover letter written from the rewrite; both scores lie in 0..100 |
| `Pipeline.Commit` | app.py:111-114 | the session after the four writes; `CommitWritesAll` states their effect |
| `Pipeline.CommitWritesAll` | app.py:111-114 | the commit replaces all four result fields with the new outputs and leaves every other session key unchanged |
| `Pipeline.TextOr` | app.py:119-120 | `st.session_state.get(key, '')`: the stored text, or the empty text when the key is missing |
| `Pipeline.MatchOr` | app.py:121-122 | `st.session_state.get(key, 0)`: the stored score, or 0 when the key is missing |
| `Pipeline.View` | app.py:119-124 | the results are rendered only when both stored texts are non-empty; `ViewOfNewSession` and `ViewAfterCommit` state what is shown |
| `Pipeline.ViewOfNewSession` | app.py:119-124 | a fresh session shows no results |
| `Pipeline.ViewAfterCommit` | app.py:119-124 | after a commit the page shows exactly the committed outputs, or nothing when either text is empty; no earlier value mixes in |
| `Pipeline.ShownAfterRun` | app.py:104-124 | after a successful run the results are shown exactly when neither generated first choice is all whitespace |
| `Pipeline.Session.constructor` | app.py:110-114 | `st.session_state` starts as an empty store |
| `Pipeline.Session.Set` | app.py:111 | writing one key changes that key only |
| `Pipeline.Enabled` | app.py:102 | the button is enabled exactly when a file is uploaded and the job description is non-empty |
| `Pipeline.StartProcess` | app.py:102-114 | nothing runs unless the button is pressed with a file present and a non-empty job description; a run that fails anywhere ends with that step's error and leaves the session untouched; a successful run writes the four fields together, from the run's outputs |

## Left out

- Streamlit rendering is not modelled: title, widgets, spinner, columns, metrics, the Ace editor and the download buttons (app.py:94-100, 116, 125-142). It is UI framework code. `View` models only which values would be rendered.
- The user's edits in the Ace editor before download are not modelled. This is UI state.
- The Groq client and its `chat.completions.create` calls are not modelled (app.py:15, 38-46, 64-72). They are a remote API, so they are the `Service` parameter. The model does keep the requests' model name, token caps (1500 and 1000) and temperature (0.7).
- The prompt texts (app.py:25-36, 52-62) are not modelled. They are fixed prose. `Task` carries the values that are substituted into them, the tone included.
- python-docx parsing and saving and the `io.BytesIO` stream are not modelled (app.py:19, 85, 88-91). They are a foreign library and binary I/O. Parsing is the `Parser` parameter, and `Document` keeps only the paragraph texts.
- How `add_paragraph` treats special characters is not modelled (app.py:87). python-docx writes a `"\r"` as a line break, which reads back as `"\n"`. It refuses characters XML does not allow, such as `"\x0b"` and `"\x0c"`, with a `ValueError`. `Document.AddParagraph` stores every line verbatim and never fails, so `CreateWordDoc`'s round trip is about the paragraph texts handed to the document, not about reading the saved file.
- Loading the API key from the environment with dotenv is not modelled (app.py:5, 11-12). It is process I/O; a key the service rejects surfaces as its `AuthError`.
- A missing key is not modelled: `groq.Groq(api_key=None)` at app.py:15 fails while the client is built, when the script starts and before any button press, so no run exists to return an error.
- `MatchScore.Score`: does not model the floating-point division or `round(match, 2)` (app.py:80-81). The exact ratio is verified; displaying it to two decimals is left to the display.
- `Text.Lower`: case is folded for ASCII letters only, not with full Unicode `str.lower()`. It still never changes whether a character is whitespace, so token boundaries are exact.
- `LineCodec.SplitJoin`: python-docx reports a line break inside a paragraph as `"\n"` in that paragraph's text. Such a document does not round-trip paragraph for paragraph, so the lemma requires newline-free paragraphs. A document with no paragraphs does not round-trip either: it extracts to `""`, which splits into one empty paragraph; so the lemma requires at least one.
- `Pipeline.StartProcess`: an error propagates as a Python exception, and Streamlit then shows it and stops that re-run of the script. The model returns `Failed(error)` instead, and the rendering of later re-runs is `View` of the unchanged session.

# Same-speaker subjective test: link conversion, answer store and submission

A Dafny model of the logic inside `webapp.py`, a Streamlit survey in which a
participant listens to pairs of recordings, answers "Yes" or "No" to "Do these
two audios belong to the same speaker?" for each pair, enters an email address
and submits; every answer becomes one row of a Google Sheet.

The model has four parts:

- **Drive link conversion** (`drive_link.dfy`, module `DriveLink`):
  `gdrive_preview_to_direct` turns a Google Drive preview link into a
  direct-download link. The source searches with `re.search` for the pattern
  `/d/([a-zA-Z0-9_-]+)`; the model spells out that one search: the leftmost
  position where `/d/` is followed by at least one id character, and the
  longest run of id characters from there (`FindFrom`, `RunLength`).
- **Catalog** (`catalog.dfy`, module `Catalog`): `audio_pairs_preview` and the
  list comprehension that converts it into `audio_pairs`.
- **Gate** (`gate.dfy`, module `Gate`): the radio's preselected index derived
  from an answer slot, `all_answered`, and `email_entered` with Python's
  `str.strip()` written out over the characters `str.isspace` accepts.
- **Session and sheet** (`survey.dfy`, module `Survey`): the session state
  `st.session_state.answers` plus the email field as a class `Session`
  whose methods update it in place; the Google Sheet as an append-only
  `Sheet` whose `append_row` may raise on one chosen call; and the submission
  loop, which appends one row per pair in order and then resets the store.

`optional.dfy` holds the `Option` datatype used for Python's `None`.

Inputs the source receives from Streamlit become parameters: the email typed
into the text field (`Session.SetEmail`), the value each radio reports
(`Session.SetAnswer`, `Session.RecordRadios`) and whether the submit button was
clicked (`Submit`'s `pressed`). An exception raised by `append_row` is modelled
as the `AppendFailed` outcome: the loop stops at that pair, the rows appended
before it stay, and the reset of the store is not reached.

Behaviour of `webapp.py` the model keeps:

- the gate is one boolean, `all_answered and email_entered` (webapp.py:89-92);
  it does not say which pairs are missing;
- the email check asks only for an `@` and a `.` anywhere in the string
  (webapp.py:90), so `a.b@c` passes; nothing requires the `.` after the `@`;
- rows are appended one `append_row` call at a time (webapp.py:95-97): a
  failing call leaves the earlier rows in the sheet;
- a successful submission resets the answers (webapp.py:99) but not the
  email field;
- each slot stores whatever the radio returned (webapp.py:85): `None`, "Yes"
  or "No"; no value is rejected when a slot is written.

## Model

| member | source | states |
|---|---|---|
| `DriveLink.RunLength` | webapp.py:32 | the greedy `+`: the run starting at `j` consists of id characters and is followed by the end of the string or a non-id character |
| `DriveLink.FindFrom` | webapp.py:32 | the leftmost search: a found position matches `/d/` plus an id character and no earlier position from `from` on matches; when nothing is found no position matches |
| `DriveLink.ExtractId` | webapp.py:32-34 | `match.group(1)` exists exactly when the pattern occurs in the link, and is then a non-empty run of id characters |
| `DriveLink.PreviewToDirect` | webapp.py:30-37 | a link without the pattern is returned unchanged; a link with it yields a string that starts with `https://drive.google.com/uc?export=download&id=` and is longer than it |
| `DriveLink.LeftmostMaximalId` | webapp.py:32-35 | for the leftmost match `p` and the end `e` of the maximal id run after `/d/`, the result is the prefix followed by exactly `url[p+3..e]` |
| `DriveLink.DirectHasNoMatch` | webapp.py:35 | the prefix followed by any id contains no `/d/` followed by an id character |
| `DriveLink.UnchangedIffNoMatch` | webapp.py:33-37 | the conversion returns its input unchanged if and only if the pattern does not occur in it |
| `DriveLink.Idempotent` | webapp.py:30-37 | converting a converted link returns it unchanged |
| `DriveLink.PreviewLinkId` | webapp.py:32-35 | a link `https://drive.google.com/file/d/<id><rest>` whose `<rest>` does not start with an id character converts to the prefix followed by `<id>` |
| `Catalog.ConvertPairs` | webapp.py:48-51 | `audio_pairs` has the length and order of `audio_pairs_preview`, and each pair's two links are converted independently |
| `Catalog.ConvertPairsIdempotent` | webapp.py:48-51 | converting a converted catalog changes nothing |
| `Catalog.FirstLinkConverts` | webapp.py:42 | the first link of the catalog yields the id `1NnrKT5cw5p29DzVswZECBA1dJ1tdIuTI`, stopping before `/preview` |
| `Catalog.SecondLinkConverts` | webapp.py:43 | the second link yields the id `1-sALpb42wFD5ce8ne1d3gO-IC-djOjgv`, whose dashes belong to the id |
| `Catalog.AudioPairsValue` | webapp.py:40-51 | `audio_pairs` is exactly the one pair of direct-download links for those two ids |
| `Gate.RadioIndex` | webapp.py:81-83 | the preselected index exists exactly when the slot holds "Yes" or "No", and then `("Yes", "No")[index]` is the slot's value |
| `Gate.RadioIndexOfOption` | webapp.py:81-83 | preselecting option `k` and reading the slot back gives index `k` |
| `Gate.TrimStart` | webapp.py:90 | the result is the suffix of `s` after its leading whitespace, and starts with a non-space when non-empty |
| `Gate.TrimEnd` | webapp.py:90 | the result is the prefix of `s` before its trailing whitespace, and ends with a non-space when non-empty |
| `Gate.Strip` | webapp.py:90 | `str.strip()` is empty exactly when the string is all whitespace, and otherwise starts and ends with a non-space |
| `Gate.AllAnswered` | webapp.py:89 | `all_answered` holds exactly when every slot's radio has an option preselected; a store that passes holds no `None` |
| `Gate.IsSpace` | webapp.py:90 | the whitespace `str.strip()` removes includes space, tab, newline and carriage return, and never `@` or `.` |
| `Gate.EmailEntered` | webapp.py:90 | `email_entered` holds exactly when the email contains `@` and `.`, in any order |
| `Gate.AtIsNotBlank` | webapp.py:90 | an email holding `@` is never blank after `strip()`, so the `strip() != ""` test is implied by the `@` test |
| `Gate.DotBeforeAtPasses` | webapp.py:90 | `a.b@c` passes the email test |
| `Gate.NoAtFails` | webapp.py:90 | `not-an-email` fails the email test |
| `Survey.Sheet.AppendRow` | webapp.py:97 | `append_row` adds the row at the end unless this call is the one that raises, in which case the rows are unchanged |
| `Survey.Session.constructor` | webapp.py:63-64 | a new session has exactly one slot per pair, all `None` |
| `Survey.Session.SetEmail` | webapp.py:61 | the email field takes the typed value; the answers are untouched |
| `Survey.Session.SetAnswer` | webapp.py:85 | writing slot `i` changes only slot `i`, keeps the length and leaves the email alone |
| `Survey.Session.RecordRadios` | webapp.py:66-85 | after the rendering loop, every slot holds the value its radio reported |
| `Survey.Session.CanSubmit` | webapp.py:89-92 | the submit button is offered exactly when every slot is "Yes" or "No" and the email contains `@` and `.` |
| `Survey.Session.AppendRows` | webapp.py:95-97 | the sheet receives one row `[email, audio1, audio2, answer]` per pair in pair order; if the append for pair `k` raises, exactly the rows of pairs `0..k-1` were added |
| `Survey.Rows` | webapp.py:95-96 | one row per pair, in pair order; row `i` is `[email, audio1_url, audio2_url, answers[i]]` for pair `i` |
| `Survey.Unanswered` | webapp.py:64 | `[None] * n`, the initial store and the reset of webapp.py:99, has `n` slots, all `None` with no radio preselected, and for at least one pair it closes the gate |
| `Survey.GatedRowsHoldChoices` | webapp.py:89-97 | rows built from a store that passed `all_answered` carry only "Yes" or "No" |
| `Survey.Session.Submit` | webapp.py:92-101 | a closed gate or an unpressed button appends nothing and changes nothing; a successful submission appends every row and resets every slot to `None` with the length kept; a failed append leaves the earlier rows and the answers as they were |
| `Survey.Session.Commit` | webapp.py:94-99 | the pressed-button branch: every row appended then the store reset to `[None] * len(audio_pairs)`, or the rows before the failing pair appended and the answers kept |
| `Survey.StartSurvey` | webapp.py:63-64 | the first run over `audio_pairs` creates `len(audio_pairs)` (here one) unanswered slots, so the gate starts closed |

## Left out

- Google Sheets authentication and opening the sheet (`get_gsheet_client`, `open_sheet`, `SCOPE`, `SPREADSHEET_NAME`, the secrets and the resource cache, webapp.py:8-27): foreign-library I/O; the sheet is the abstract `Sheet` row sink.
- `load_audio_bytes` (webapp.py:53-56): an HTTP fetch, network I/O.
- Rendering: title, headers, columns, `st.audio`, `st.write`, markdown and the success and info messages (webapp.py:59, 67-77, 87, 98, 101); the radio widget and the button are reduced to the values they report.
- Streamlit's rerun-on-interaction execution and the persistence of session state across reruns: the `Session` object stands for that state, and the `if "answers" not in st.session_state` test (webapp.py:63) is the constructor being run once per session.
- The regular-expression engine in general: only the one fixed pattern's leftmost-match, greedy-capture behaviour is modelled.
- `Survey.Sheet.AppendRow`: a call that raises is modelled as appending nothing; a partial write inside the remote service is not modelled.
- Exceptions from `open_sheet` (webapp.py:94) and from `load_audio_bytes` (webapp.py:71, 75) are not modelled: `Submit` has no outcome for a sheet that cannot be opened (in the source the step ends before any `append_row`), and `RecordRadios` assumes the render loop reaches every pair (in the source a failed fetch stops it before slot `i` is written and the gate is never evaluated).

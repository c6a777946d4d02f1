# HireFlow — a Dafny model

HireFlow is a small Next.js application that sends job applications by
email. The page walks the applicant through a two-step wizard:

- Step 1 has three configuration blocks:
  - the sender's address and mail credential;
  - personal data;
  - the professional profile.
- Step 2 holds the application itself: recipient, company and a personalised
  paragraph.

Two server routes back the page:

- `POST /api/sugerir-empresa` asks a language model to propose one company.
  - It builds one of two prompts from the profile.
  - It cleans the model's answer line by line and scans it for a company name,
    an address and a paragraph.
  - It falls back to a fixed pool of five companies when there is no token,
    when the call fails or when the answer is incomplete.
- `POST /api/send-email` reads a multipart form.
  - It rejects the request unless twelve fields arrived as text.
  - It attaches the uploaded résumé.
  - It simulates the send when the sender's credentials are empty.
  - Otherwise it fills one of two HTML templates and sends the mail through an
    SMTP relay.

The model has one module per concern:

| module | file | what it holds |
|---|---|---|
| `Wrappers` | wrappers.dfy | `Option` |
| `Form` | form.dfy | the thirteen form fields, their wire names, the form record, an uploaded file |
| `Text` | text.dfy | JavaScript whitespace, `trim`, mark deletion, line splitting and the email pattern `\S+@\S+\.\S+` |
| `Template` | template.dfy | template literals as text pieces and field slots, with what rendering embeds |
| `SuggestPrompts` | suggest_prompts.dfy | the two prompts of the suggestion route |
| `SuggestExtract` | suggest_extract.dfy | the answer parser: a pure fold, a declarative reading of it, and the route's loop as a method proved equal to both |
| `SuggestRoute` | suggest_route.dfy | the suggestion route with its mock pool |
| `SendEmail` | send_email.dfy | the send-email route |
| `Wizard` | wizard.dfy | the page as a class `HireFlow` whose methods are the page's handlers |

The credential value that switches both routes to their second prompt and
template is an actual app password in the source. The model does not repeat
it: it is a configuration parameter `marker` (`SuggestRoute.Config.marker`,
`SendEmail.MailConfig.marker`). Every property is proved for every marker.

The outside world becomes plain parameters:

- the inference call becomes `SuggestRoute.Inference`: it threw, or it
  answered with optional content;
- the relay becomes `SendEmail.Relay`: authentication rejected, send
  rejected, or accepted with a message id;
- `Math.random` becomes the index `pick < 5`;
- `HF_TOKEN` and `SMTP_USER` become fields of the configuration;
- the routes' JSON replies, as seen by the page, become `Option` arguments of
  the page's methods (`None` when the request or its JSON failed).

## Model

| member | source | states |
|---|---|---|
| Form.FormData.With | app/page.tsx:39-41 | the named field takes the new value and every other field keeps its value |
| Form.FieldsDetermineForm | app/page.tsx:19-33 | (proof helper) two forms that agree on all thirteen fields are equal |
| Form.WithSameValue | app/page.tsx:39-41 | typing a field's current value again leaves the form unchanged |
| Form.WithOverwrites | app/page.tsx:39-41 | of two successive edits to the same field only the last one counts |
| Text.TrimStart | app/api/sugerir-empresa/route.ts:130 | the result is a suffix of the input, everything dropped is whitespace, and the result does not start with whitespace |
| Text.TrimEnd | app/api/sugerir-empresa/route.ts:130 | the result is a prefix of the input, everything dropped is whitespace, and the result does not end with whitespace |
| Text.Trim | app/api/sugerir-empresa/route.ts:130 | the result is a slice of the input with only whitespace removed around it, and it neither starts nor ends with whitespace |
| Text.TrimFixed | app/api/sugerir-empresa/route.ts:148 | trimming leaves a string unchanged when it neither starts nor ends with whitespace |
| Text.TrimIdempotent | app/api/sugerir-empresa/route.ts:148 | trimming twice equals trimming once |
| Text.DropMarks | app/api/sugerir-empresa/route.ts:130 | no `*`, `_` or `-` is left |
| Text.DropMarksCounts | app/api/sugerir-empresa/route.ts:130 | every character other than `*`, `_` and `-` keeps its number of occurrences, and those three occur zero times |
| Text.DropMarksAppend | app/api/sugerir-empresa/route.ts:130 | deleting marks distributes over concatenation |
| Text.DropMarksFixed | app/api/sugerir-empresa/route.ts:130 | a string without marks is unchanged |
| Text.Segments | app/api/sugerir-empresa/route.ts:129 | splitting at `\n` yields at least one segment and no segment holds `\n` |
| Text.SegmentsJoin | app/api/sugerir-empresa/route.ts:129 | joining the segments with `\n` gives back the input |
| Text.JoinSegments | app/api/sugerir-empresa/route.ts:129 | splitting a `\n`-joined list of `\n`-free strings gives back the list |
| Text.SegmentsOfLine | app/api/sugerir-empresa/route.ts:129 | splitting a line followed by `\n` and more text yields that line, then the segments of the rest |
| Text.DropCarriageReturn | app/api/sugerir-empresa/route.ts:129 | the result is the input, or the input with one trailing `\r` removed; it is the latter exactly when the input ends in `\r` |
| Text.SplitLines | app/api/sugerir-empresa/route.ts:129 | `split(/\r?\n/)`: as many lines as `\n`-segments, none holding `\n`, each but the last with one trailing `\r` removed |
| Text.SplitJoin | app/api/sugerir-empresa/route.ts:129 | lines without `\n`, none but the last ending in `\r`, joined with `\n` and split again with `/\r?\n/` come back unchanged |
| Text.TokenEnd | app/api/sugerir-empresa/route.ts:143 | the end of the whitespace-free run starting at a position |
| Text.FindEmail | app/api/sugerir-empresa/route.ts:143 | a found span lies at or after the search position and its text is email-shaped |
| Text.FindEmailToken | app/api/sugerir-empresa/route.ts:143 | a found span is a whole whitespace-delimited token: it starts at the search position or just after whitespace, and it ends where that token ends |
| Text.FindEmailMatches | app/api/sugerir-empresa/route.ts:143 | the span found is a match of `\S+@\S+\.\S+` |
| Text.FindEmailFirst | app/api/sugerir-empresa/route.ts:143 | no match starts before the span found, and nothing is found exactly when no match starts at or after the search position |
| Text.ShapedTokenMatches | app/api/sugerir-empresa/route.ts:138 | a whitespace-free token with `@` and then `.` each followed by at least one character matches the pattern |
| Text.MatchInsideToken | app/api/sugerir-empresa/route.ts:138 | a match that starts inside a maximal token makes that token email-shaped |
| Text.HasEmail | app/api/sugerir-empresa/route.ts:138-142 | the email test `/\S+@\S+\.\S+/.test(line)`; its meaning is given by `Text.HasEmailMeaning` |
| Text.HasEmailMeaning | app/api/sugerir-empresa/route.ts:138 | the computed test holds exactly when the pattern matches somewhere in the line |
| Text.FirstEmail | app/api/sugerir-empresa/route.ts:143 | `line.match(...)[0]` is a non-empty, whitespace-free, email-shaped infix of the line |
| Text.FirstEmailLeftmostLongest | app/api/sugerir-empresa/route.ts:143 | `line.match(...)[0]` is the text of a match of the regex at its position, no match starts earlier, and no match at that position is longer |
| Text.EmailTokenMatchesItself | app/api/sugerir-empresa/route.ts:143 | an email-shaped token on its own passes the test and is its own first match |
| Text.TokenEndOfRun | app/api/sugerir-empresa/route.ts:143 | a run without whitespace extends to the end of the string |
| Template.RenderContains | app/api/sugerir-empresa/route.ts:6-10 | a template literal that interpolates a field contains that field's value |
| Template.RenderIgnores | app/api/sugerir-empresa/route.ts:35-37 | a template literal depends only on the fields it interpolates |
| SuggestPrompts.ProfilePrompt | app/api/sugerir-empresa/route.ts:6-33 | `getPrompt`'s template literal as text pieces and field slots; its meaning is given by `SuggestPrompts.ProfilePromptHasJobInfo` and `SuggestRoute.ProfilePromptCarriesJobInfo` |
| SuggestPrompts.FixedSkillsPrompt | app/api/sugerir-empresa/route.ts:35-72 | `getPrompt2`'s template literal; its meaning is given by `SuggestPrompts.FixedSkillsPromptLacksJobInfo` and `SuggestRoute.FixedSkillsPromptIgnoresJobInfo` |
| SuggestPrompts.ProfilePromptHasJobInfo | app/api/sugerir-empresa/route.ts:6-10 | `getPrompt` interpolates `jobInfo` |
| SuggestPrompts.FixedSkillsPromptLacksJobInfo | app/api/sugerir-empresa/route.ts:35-37 | `getPrompt2` does not interpolate `jobInfo` |
| SuggestExtract.CleanLine | app/api/sugerir-empresa/route.ts:130 | a cleaned line is empty or non-empty, trimmed and free of marks and newlines |
| SuggestExtract.TrimKeepsClean | app/api/sugerir-empresa/route.ts:130 | trimming keeps a line free of marks and newlines |
| SuggestExtract.CleanLineOfClean | app/api/sugerir-empresa/route.ts:130 | a line that is already clean is left unchanged by the cleaning |
| SuggestExtract.CleanEach | app/api/sugerir-empresa/route.ts:130 | `.map(clean)`: as many lines as given, each empty or clean; which cleaned line stands where is stated by `SuggestExtract.CleanAllMeaning` |
| SuggestExtract.NonEmpty | app/api/sugerir-empresa/route.ts:131 | `.filter(line => line)`: no more strings than given, each one of the given and non-empty |
| SuggestExtract.PositionsMeaning | app/api/sugerir-empresa/route.ts:131 | (proof helper) the positions of the `true` entries of a list of flags, strictly increasing and complete |
| SuggestExtract.NonEmptyAppend | app/api/sugerir-empresa/route.ts:131 | the filter distributes over concatenation |
| SuggestExtract.NonEmptyMeaning | app/api/sugerir-empresa/route.ts:131 | the filter returns exactly the non-empty strings, at their increasing positions, in order |
| SuggestExtract.NonEmptyOfFilled | app/api/sugerir-empresa/route.ts:131 | a list without empty strings passes the filter unchanged |
| SuggestExtract.CleanAll | app/api/sugerir-empresa/route.ts:130-131 | the filter keeps at most as many lines, and every kept line is clean |
| SuggestExtract.CleanAllMeaning | app/api/sugerir-empresa/route.ts:130-131 | the kept lines are the cleaned input lines at strictly increasing positions, in their original order |
| SuggestExtract.CleanAllKeeps | app/api/sugerir-empresa/route.ts:130-131 | a line is kept exactly when its cleaned text is non-empty, so with the previous row no non-empty cleaned line is lost |
| SuggestExtract.CleanAllOfClean | app/api/sugerir-empresa/route.ts:130-131 | lines that are all clean pass the cleaning and the filter unchanged |
| SuggestExtract.CleanLines | app/api/sugerir-empresa/route.ts:128-131 | every line reaching the scan is non-empty, trimmed and has no `*`, `_`, `-` or newline |
| SuggestExtract.CleanLinesOfJoin | app/api/sugerir-empresa/route.ts:128-131 | clean lines joined with `\n` come back unchanged from the split, the cleaning and the filter |
| SuggestExtract.StripNameLabel | app/api/sugerir-empresa/route.ts:139 | the result is a suffix of the line; with the case-insensitive label exactly the label and the whitespace after it are removed (what is dropped past the label is all whitespace and the rest starts with non-whitespace); without it the line is unchanged |
| SuggestExtract.LabelColon | app/api/sugerir-empresa/route.ts:146 | the first `:` not preceded by a line terminator, or `None` when every `:` has one before it |
| SuggestExtract.StripParagraphLabel | app/api/sugerir-empresa/route.ts:146 | `line.replace(/^[Pp][áa]rrafo.*?:\s*/i, "")`; its meaning is given by `SuggestExtract.StripParagraphLabelSuffix` and `SuggestExtract.StripParagraphLabelAfterColon` |
| SuggestExtract.StripParagraphLabelSuffix | app/api/sugerir-empresa/route.ts:146 | the result is a suffix of the line; a line without the `[Pp][áa]rrafo` head, or with the head but no colon before a line terminator, is unchanged |
| SuggestExtract.StripParagraphLabelAfterColon | app/api/sugerir-empresa/route.ts:146 | with the head and a first colon at `c`, exactly the text up to that colon and the whitespace after it are removed: what is dropped past the colon is all whitespace and the rest starts with non-whitespace |
| SuggestExtract.FirstNameFound | app/api/sugerir-empresa/route.ts:138-141 | a name is found exactly when some line is not email-shaped and keeps text after its label is stripped |
| SuggestExtract.FirstMailFound | app/api/sugerir-empresa/route.ts:142-145 | an address is found exactly when some line passes the email test |
| SuggestExtract.FirstNameSnoc | app/api/sugerir-empresa/route.ts:138-141 | appending a line changes the found name only when none was found before |
| SuggestExtract.FirstMailSnoc | app/api/sugerir-empresa/route.ts:142-145 | appending a line changes the found address only when none was found before |
| SuggestExtract.ScanSnoc | app/api/sugerir-empresa/route.ts:137-147 | (proof helper) the scan of a longer list is one more loop step on the scan of the shorter |
| SuggestExtract.ScanPrefix | app/api/sugerir-empresa/route.ts:137-147 | (proof helper) one more loop step on the scan of the first `i` lines is the scan of the first `i + 1` |
| SuggestExtract.Step | app/api/sugerir-empresa/route.ts:138-146 | one pass of the loop body over the three accumulators; its meaning is given by `SuggestExtract.InParagraphLast`, `SuggestExtract.StepAppends` and `SuggestExtract.StepLine` |
| SuggestExtract.Scan | app/api/sugerir-empresa/route.ts:137-147 | the loop as a fold of `Step` over the lines; its meaning is given by `SuggestExtract.ScanMeaning` |
| SuggestExtract.InParagraphLast | app/api/sugerir-empresa/route.ts:137-147 | the last line goes to the paragraph exactly when the earlier lines already filled the field that line would fill (the address for an email-shaped line, the name otherwise) |
| SuggestExtract.ScanMeaning | app/api/sugerir-empresa/route.ts:137-147 | the loop's accumulators are the first name line with its label stripped, the first token of the first email line, and every other line in order, label-stripped and followed by one space |
| SuggestExtract.ScanFirsts | app/api/sugerir-empresa/route.ts:138-145 | the name and address halves of the previous row |
| SuggestExtract.ScanParagraph | app/api/sugerir-empresa/route.ts:137-147 | the paragraph half: exactly the paragraph lines, in order |
| SuggestExtract.NameNeverFromEmailLine | app/api/sugerir-empresa/route.ts:138 | the name never comes from an email-shaped line |
| SuggestExtract.NameComesFrom | app/api/sugerir-empresa/route.ts:138-141 | a found name is the label-stripped text of some line that is not email-shaped and keeps text after stripping |
| SuggestExtract.ScanKeepsFirst | app/api/sugerir-empresa/route.ts:138-145 | once set, the name and the address are never overwritten by later lines |
| SuggestExtract.ExpectedLayout | app/api/sugerir-empresa/route.ts:137-148 | an answer laid out as name line, email line and paragraph lines is read as exactly those parts |
| SuggestExtract.RawLayout | app/api/sugerir-empresa/route.ts:128-155 | the same layout as raw text: a name line, an email line and paragraph lines, each already clean, joined with `\n`, give exactly those three parts, or no suggestion when the paragraph trims to nothing |
| SuggestExtract.HeadLines | app/api/sugerir-empresa/route.ts:138-145 | a name line then an email line fill the name and the address and leave the paragraph empty |
| SuggestExtract.ParagraphAfter | app/api/sugerir-empresa/route.ts:146 | once the name and the address are set, every further line is appended to the paragraph, label-stripped and followed by one space, and nothing else changes |
| SuggestExtract.AppendParagraph | app/api/sugerir-empresa/route.ts:146 | the same for one line |
| SuggestExtract.StepAppends | app/api/sugerir-empresa/route.ts:146 | with the name and the address set, a loop step only appends to the paragraph |
| SuggestExtract.JoinParagraphSnoc | app/api/sugerir-empresa/route.ts:146 | the paragraph of one more line ends with that line, label-stripped, and one space |
| SuggestExtract.ScanMailShaped | app/api/sugerir-empresa/route.ts:142-145 | the accumulated `correo` is empty or a whitespace-free email-shaped token |
| SuggestExtract.FirstMailShaped | app/api/sugerir-empresa/route.ts:142-145 | the declared address is empty or a whitespace-free email-shaped token |
| SuggestExtract.Extract | app/api/sugerir-empresa/route.ts:127-155 | a returned suggestion has a non-empty name, an email-shaped address and a non-empty trimmed paragraph |
| SuggestExtract.ExtractMeaning | app/api/sugerir-empresa/route.ts:148-155 | a suggestion is returned exactly when a name line, an email line and a non-blank paragraph exist, and then it is those three |
| SuggestExtract.NoEmailNoSuggestion | app/api/sugerir-empresa/route.ts:150-153 | an answer without an email-shaped line never yields a suggestion |
| SuggestExtract.StepLine | app/api/sugerir-empresa/route.ts:138-146 | one pass of the loop body performs exactly one step of the scan |
| SuggestExtract.ScanLines | app/api/sugerir-empresa/route.ts:133-147 | the loop leaves in its three variables exactly the scan of the lines |
| SuggestExtract.ParseCompletion | app/api/sugerir-empresa/route.ts:127-155 | the route's parsing loop returns exactly what the pure extractor returns, and what it returns is well formed |
| SuggestRoute.MockPool | app/api/sugerir-empresa/route.ts:167-173 | the five fallback companies, in source order; its meaning is given by `SuggestRoute.MockPoolWellFormed` |
| SuggestRoute.MockPoolWellFormed | app/api/sugerir-empresa/route.ts:166-176 | the pool has five entries and each has a name, an email-shaped address and a paragraph |
| SuggestRoute.WitnessedWellFormed | app/api/sugerir-empresa/route.ts:168-172 | an entry with a printable address holding `@` and then `.` passes the email test |
| SuggestRoute.Member | app/api/sugerir-empresa/route.ts:82-97 | a destructured body member, `undefined` when missing; its meaning in the prompt is given by `Wizard.SuggestRequestUsesProfilePrompt` |
| SuggestRoute.FixedSkillsSelected | app/api/sugerir-empresa/route.ts:102 | the switch to the fixed-skills prompt, when `smtpKey` equals the marker; its meaning is given by `SuggestRoute.FixedSkillsPromptIgnoresJobInfo` and `Wizard.SuggestRequestUsesProfilePrompt` |
| SuggestRoute.Prompt | app/api/sugerir-empresa/route.ts:101-107 | the prompt built for every readable body, the fixed-skills one exactly when the credential equals the marker; its meaning is given by the next two rows |
| SuggestRoute.ProfilePromptCarriesJobInfo | app/api/sugerir-empresa/route.ts:101-107 | unless the credential equals the marker, the applicant's `jobInfo` appears in the prompt |
| SuggestRoute.FixedSkillsPromptIgnoresJobInfo | app/api/sugerir-empresa/route.ts:101-107 | when the credential equals the marker, changing `jobInfo` does not change the prompt |
| SuggestRoute.Post | app/api/sugerir-empresa/route.ts:75-176 | an unreadable body gives `{ok:false, error}`; any readable body gives `ok:true` with a complete suggestion; the inference step is entered, with the prompt, exactly when the token is set; a suggestion is a pool entry or the parsed answer, and a complete answer is always used |
| SuggestRoute.NoEmailFallsBack | app/api/sugerir-empresa/route.ts:150-153 | an answer without an address yields the picked pool entry |
| SuggestRoute.NoSuggestionFallsBack | app/api/sugerir-empresa/route.ts:150-153 | an answer the extractor finds no complete suggestion in yields the picked pool entry |
| SendEmail.CheckedFields | app/api/send-email/route.ts:462-474 | the twelve fields the route checks to be text; its meaning is given by `SendEmail.MissingFieldRejected` |
| SendEmail.FieldsValid | app/api/send-email/route.ts:462-480 | the twelve checked fields are all present as text; its meaning is given by `SendEmail.MissingFieldRejected` and `Wizard.SubmitPassesValidation` |
| SendEmail.Attachments | app/api/send-email/route.ts:483-492 | at most one attachment, present exactly when `cv` is a file, named after it, with its bytes, typed by its MIME type or `application/pdf` |
| SendEmail.ErrorText | app/api/send-email/route.ts:531-536 | the error text is never empty and is the thrown message when that is not empty |
| SendEmail.Post | app/api/send-email/route.ts:428-538 | unreadable body is a 500; a missing or non-text field is a 400 before anything else; the send is simulated exactly when the sender address or credential is empty; a transporter is created exactly otherwise; the reply is `Invalid` exactly when a field is missing or not text; a mail is sent unless authentication fails; when the relay then fails the reply is a 500 carrying the relay's error message (the fallback text when that is empty); success carries the relay's id; every failure has a non-empty message; `ok` exactly with status 200 |
| SendEmail.NoCredentials | app/api/send-email/route.ts:495 | `!senderEmail || !smtpKey`; its meaning is given by `SendEmail.Post` (the send is simulated exactly when it holds) and `Wizard.SubmitSimulatedIffNoCredentials` |
| SendEmail.PersonalTemplateSelected | app/api/send-email/route.ts:513 | the switch to the second template, when `smtpKey` equals the marker; its meaning is given by `Wizard.SubmitTemplateChoice` and `SendEmail.SelectionIgnoresJobInfo` |
| SendEmail.GeneralTemplate | app/api/send-email/route.ts:12-208 | `getEmailTemplate`'s visible text as pieces and field slots; its meaning is given by `SendEmail.GeneralTemplateHasJobInfo` and `SendEmail.TemplatesHaveCompanyAndMessage` |
| SendEmail.PersonalTemplate | app/api/send-email/route.ts:211-422 | `getEmailTemplate2`'s visible text, with the fixed skills list in place of `jobInfo`; its meaning is given by `SendEmail.PersonalTemplateLacksJobInfo` and `SendEmail.PersonalRenderIgnoresJobInfo` |
| SendEmail.TemplateFor | app/api/send-email/route.ts:513-519 | the template for a request; its meaning is given by `SendEmail.SelectionIgnoresJobInfo` and `Wizard.SubmitTemplateChoice` |
| SendEmail.Compose | app/api/send-email/route.ts:522-527 | the mail for a validated request; its meaning is given by `SendEmail.RecipientAndSubject`, `SendEmail.Attachments` and `SendEmail.BodyCarriesFields` |
| SendEmail.Body | app/api/send-email/route.ts:522-527 | the HTML body, the chosen template filled with the request's fields; its meaning is given by `SendEmail.BodyCarriesFields` and `SendEmail.PersonalBodyIgnoresJobInfo` |
| SendEmail.RecipientAndSubject | app/api/send-email/route.ts:522-527 | the mail goes to the submitted `email` with subject `Candidatura <workstation> <experienceLevel> – <empresa>` |
| SendEmail.MissingFieldRejected | app/api/send-email/route.ts:462-480 | a request lacking any checked field is a 400 and creates no transporter |
| SendEmail.GeneralTemplateHasJobInfo | app/api/send-email/route.ts:171 | the first template interpolates `jobInfo` |
| SendEmail.PersonalTemplateLacksJobInfo | app/api/send-email/route.ts:368-378 | the second template does not interpolate `jobInfo` |
| SendEmail.TemplatesHaveCompanyAndMessage | app/api/send-email/route.ts:162-176 | both templates interpolate the company and the message |
| SendEmail.BodyCarriesFields | app/api/send-email/route.ts:513-519 | the body always contains the company and the message, and with the first template also `jobInfo` |
| SendEmail.PersonalBodyIgnoresJobInfo | app/api/send-email/route.ts:513-519 | with the second template, changing `jobInfo` does not change the body |
| SendEmail.SelectionIgnoresJobInfo | app/api/send-email/route.ts:513 | the template choice does not depend on `jobInfo` |
| SendEmail.PersonalRenderIgnoresJobInfo | app/api/send-email/route.ts:368-378 | the second template's text does not depend on `jobInfo` |
| Wizard.SubmitRequest | app/page.tsx:89-103 | every form field is sent as text under its own name, and `cv` exactly when a résumé is held |
| Wizard.SuggestRequest | app/page.tsx:119-124 | the body carries exactly the six profile fields with their values, and neither credential |
| Wizard.HireFlow.constructor | app/page.tsx:17-34 | the wizard starts at step 1, block 1, with an empty form and no résumé |
| Wizard.HireFlow.HandleInputChange | app/page.tsx:39-41 | exactly the named field changes |
| Wizard.Required | app/page.tsx:43-66 | the fields each configuration block requires; its meaning is given by `Wizard.BlockFields` |
| Wizard.HireFlow.ValidateSubStep | app/page.tsx:43-66 | the current block's required fields are all non-empty |
| Wizard.HireFlow.HandleNext | app/page.tsx:68-72 | an invalid block changes nothing; a valid one advances the block, or from block 3 moves to step 2; step and block never decrease |
| Wizard.HireFlow.IsFormValid | app/page.tsx:156-168 | every field but `linkedin` is non-empty |
| Wizard.SetApplication | app/page.tsx:109 | the three application fields take the given values and every other field keeps its value |
| Wizard.HireFlow.HandleManualSubmit | app/page.tsx:80-114 | no request while an application field is empty; the request is the full form with the résumé; an `ok` reply clears exactly the three application fields |
| Wizard.HireFlow.HandleAIGeneration | app/page.tsx:116-140 | the request carries the six profile fields; a suggestion fills recipient, company and message from address, name and paragraph and moves to step 2; otherwise nothing changes |
| Wizard.HireFlow.HandleFileChange | app/page.tsx:146-154 | only a file typed `application/pdf` replaces the held résumé |
| Wizard.BlockFields | app/page.tsx:43-66 | a block's required-field set is filled exactly when the block's checks pass |
| Wizard.FilledFields | app/page.tsx:156-168 | every field but `linkedin` is filled exactly when the twelve checks pass |
| Wizard.SubmitPassesValidation | app/api/send-email/route.ts:462-480 | the page's request always passes the route's field check |
| Wizard.SubmitSimulatedIffNoCredentials | app/api/send-email/route.ts:495-497 | the page's send is simulated exactly when the sender address or credential is empty, and reaches the relay otherwise |
| Wizard.ValidFormReachesRelay | app/page.tsx:291 | a valid form's send reaches the relay (the transporter is created); the page submits only a valid form, since the send button is disabled otherwise |
| Wizard.SubmitAttachesResume | app/page.tsx:100 | the held résumé becomes the mail's single attachment with its name and bytes, and no résumé gives no attachment |
| Wizard.SubmitTemplateChoice | app/api/send-email/route.ts:513-519 | the second template is used exactly when the typed credential equals the marker |
| Wizard.SuggestRequestUsesProfilePrompt | app/page.tsx:119-123 | the page's suggestion request never selects the fixed-skills prompt, so its `jobInfo` appears in the prompt, which the inference step receives whenever the token is set |
| Wizard.SuggestionFillsApplication | app/api/sugerir-empresa/route.ts:150-155 | every reply to the page's suggestion request has a non-empty name, address and paragraph |

## Left out

- Network and foreign libraries:
  - the page's `fetch` calls;
  - the Hugging Face `chatCompletion` call, with its model name, token limit and temperature;
  - nodemailer's `createTransport`, `verify` and `sendMail`.

  Each is an abstract outcome passed in as a parameter. `SMTP_HOST`, `SMTP_PORT` and the `secure` flag have no effect on the modelled outcome.
- `Math.random`: the fallback entry is the parameter `pick`. Nothing is claimed about its distribution.
- The marker's literal value is not reproduced: it is the configuration parameter `marker`.
- The templates' HTML markup, CSS and emoji: `SendEmail.GeneralTemplate` and `SendEmail.PersonalTemplate` keep the interpolated fields, in source order, and the visible text between them, except the résumé and thanks paragraphs between the message and the contact block. Nothing in the source escapes values, and the model does not either.
- The templates' fixed text that holds no field: the résumé and thanks paragraphs between the message and the contact block (app/api/send-email/route.ts:179 and 181 in the first template, 393 and 395 in the second), and the footer (lines 201-202 and 415-416). The properties proved are about the interpolated fields, which this text does not affect.
- JSON member values of the suggestion route that are not strings. A missing member renders as `undefined`, as a template literal does.
- UTF-16 surrogate pairs: strings are sequences of code points. JavaScript's whitespace set is modelled code point by code point.
- Form parts that repeat a name: only the first value of a name is read, so the request is a map from names to parts.
- The `Buffer`/`arrayBuffer` conversion of the résumé: bytes are copied unchanged.
- The page's loading flags (`isSubmitting`, `isGeneratingAI`), toasts, JSX rendering and `console` output. Interleaving of concurrent handlers is also left out: each handler runs to completion.
- `Wizard.HireFlow.HandleInputChange`: only the thirteen known field names are accepted. The page's inputs pass only those names, although the handler's type allows any string.
- `handleAISend` in app/page.tsx is never used and only delegates to `handleManualSubmit`.
- app/components/ai-proposal-modal.tsx is not part of this model: the page does not use it.
- app/actions.ts is not part of this model: it holds thin fetch wrappers.
- app/layout.tsx is not part of this model: it holds layout markup.
- types/nodemailer.d.ts is not part of this model: it holds type declarations.

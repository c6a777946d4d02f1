/** The client page: a two-step wizard. Step 1 collects the configuration
    in three blocks (credentials, personal data, professional profile);
    step 2 collects the application (recipient, company, message), sends it
    to the send-email route, or asks the suggestion route to fill it. */
module Wizard {
  import opened Wrappers
  import opened Form
  import opened Text
  import SendEmail
  import SuggestRoute
  import SuggestExtract

  type StepNo = n: int | 1 <= n <= 2 witness 1
  type SubStepNo = n: int | 1 <= n <= 3 witness 1

  const PdfType := "application/pdf"

  /** The fields each configuration block asks for. */
  function Required(sub: SubStepNo): set<Field> {
    if sub == 1 then {SenderEmail, SmtpKey}
    else if sub == 2 then {FullName, Phone, Location, EducationLevel}
    else {Workstation, JobInfo, ExperienceLevel}
  }

  /** The three fields of the application itself. */
  const ApplicationFields: set<Field> := {Email, Empresa, Personalizado}

  /** The form with its three application fields set to `e`, `c` and `p`
      and every other field kept. */
  function SetApplication(form: FormData, e: string, c: string, p: string): (g: FormData)
    ensures g.email == e && g.empresa == c && g.personalizado == p
    ensures forall f :: f in ApplicationFields ==> g.Get(f) == if f == Email then e else if f == Empresa then c else p
    ensures forall f :: f !in ApplicationFields ==> g.Get(f) == form.Get(f)
  {
    form.With(Email, e).With(Empresa, c).With(Personalizado, p)
  }

  /** The multipart form `handleManualSubmit` posts: every field of the form
      as text under its own name, and the résumé as `cv` when one is held. */
  function SubmitRequest(form: FormData, cv: Option<File>): (parts: map<string, SendEmail.Part>)
    ensures forall f :: Name(f) in parts && parts[Name(f)] == SendEmail.TextPart(form.Get(f))
    ensures "cv" in parts <==> cv.Some?
    ensures cv.Some? ==> parts["cv"] == SendEmail.FilePart(cv.value)
  {
    var text := map[
      "senderEmail" := SendEmail.TextPart(form.senderEmail),
      "smtpKey" := SendEmail.TextPart(form.smtpKey),
      "fullName" := SendEmail.TextPart(form.fullName),
      "phone" := SendEmail.TextPart(form.phone),
      "location" := SendEmail.TextPart(form.location),
      "educationLevel" := SendEmail.TextPart(form.educationLevel),
      "workstation" := SendEmail.TextPart(form.workstation),
      "jobInfo" := SendEmail.TextPart(form.jobInfo),
      "experienceLevel" := SendEmail.TextPart(form.experienceLevel),
      "linkedin" := SendEmail.TextPart(form.linkedin),
      "email" := SendEmail.TextPart(form.email),
      "empresa" := SendEmail.TextPart(form.empresa),
      "personalizado" := SendEmail.TextPart(form.personalizado)];
    if cv.Some? then text["cv" := SendEmail.FilePart(cv.value)] else text
  }

  /** The six profile fields `handleAIGeneration` sends as JSON. */
  const SuggestFields: set<Field> := {Workstation, JobInfo, ExperienceLevel, FullName, Location, EducationLevel}

  /** The JSON body `handleAIGeneration` posts: the six profile fields and
      nothing else, so neither credential leaves the page. */
  function SuggestRequest(form: FormData): (r: map<string, string>)
    ensures forall f :: Name(f) in r <==> f in SuggestFields
    ensures forall f :: f in SuggestFields ==> r[Name(f)] == form.Get(f)
    ensures "smtpKey" !in r && "senderEmail" !in r
  {
    map[
      "workstation" := form.workstation,
      "jobInfo" := form.jobInfo,
      "experienceLevel" := form.experienceLevel,
      "fullName" := form.fullName,
      "location" := form.location,
      "educationLevel" := form.educationLevel]
  }

  class HireFlow {
    var step: StepNo
    var subStep: SubStepNo
    var form: FormData
    var cvFile: Option<File>

    /** The page's initial state. */
    constructor()
      ensures step == 1 && subStep == 1 && form == Blank && cvFile == None
    {
      step := 1;
      subStep := 1;
      form := Blank;
      cvFile := None;
    }

    /** `handleInputChange`: one field takes the typed value. */
    method HandleInputChange(f: Field, v: string)
      modifies this
      ensures form == old(form).With(f, v)
      ensures form.Get(f) == v
      ensures forall g :: g != f ==> form.Get(g) == old(form).Get(g)
      ensures step == old(step) && subStep == old(subStep) && cvFile == old(cvFile)
    {
      form := form.With(f, v);
    }

    /** `validateSubStep`: the current block's fields are all filled in. */
    function ValidateSubStep(): (ok: bool)
      reads this
      ensures ok <==> forall f :: f in Required(subStep) ==> form.Get(f) != ""
    {
      BlockFields(form, subStep);
      if subStep == 1 then form.senderEmail != "" && form.smtpKey != ""
      else if subStep == 2 then
        form.fullName != "" && form.phone != "" && form.location != "" && form.educationLevel != ""
      else form.workstation != "" && form.jobInfo != "" && form.experienceLevel != ""
    }

    /** `handleNext`: a valid block moves to the next one, and the third to
      step 2; an invalid block moves nothing. The wizard never goes back. */
    method HandleNext() returns (advanced: bool)
      modifies this
      ensures advanced == old(ValidateSubStep())
      ensures !advanced ==> step == old(step) && subStep == old(subStep)
      ensures advanced && old(subStep) < 3 ==> subStep == old(subStep) + 1 && step == old(step)
      ensures advanced && old(subStep) == 3 ==> step == 2 && subStep == 3
      ensures step >= old(step) && subStep >= old(subStep)
      ensures form == old(form) && cvFile == old(cvFile)
    {
      advanced := ValidateSubStep();
      if !advanced {
        return;
      }
      if subStep < 3 {
        subStep := subStep + 1;
      } else {
        step := 2;
      }
    }

    /** `isFormValid`: every field but `linkedin` is filled in. */
    function IsFormValid(): (ok: bool)
      reads this
      ensures ok <==> forall f :: f != Linkedin ==> form.Get(f) != ""
    {
      FilledFields(form);
      form.senderEmail != "" && form.smtpKey != "" && form.fullName != "" &&
      form.phone != "" && form.location != "" && form.educationLevel != "" &&
      form.workstation != "" && form.jobInfo != "" && form.experienceLevel != "" &&
      form.email != "" && form.empresa != "" && form.personalizado != ""
    }

    /** `handleManualSubmit`. `reply` is what the send-email route answered,
      `None` when the request or its JSON failed. Nothing is sent while an
      application field is empty; on an `ok` reply the three application
      fields are cleared and the configuration kept. */
    method HandleManualSubmit(reply: Option<SendEmail.Reply>) returns (request: Option<map<string, SendEmail.Part>>)
      modifies this
      ensures request.Some? <==> forall f :: f in ApplicationFields ==> old(form).Get(f) != ""
      ensures request.Some? ==> request.value == SubmitRequest(old(form), old(cvFile))
      ensures var cleared := request.Some? && reply.Some? && reply.value.Ok();
        forall f :: form.Get(f) == if cleared && f in ApplicationFields then "" else old(form).Get(f)
      ensures step == old(step) && subStep == old(subStep) && cvFile == old(cvFile)
    {
      if form.email == "" || form.empresa == "" || form.personalizado == "" {
        return None;
      }
      request := Some(SubmitRequest(form, cvFile));
      if reply.Some? && reply.value.Ok() {
        form := SetApplication(form, "", "", "");
      }
    }

    /** `handleAIGeneration`. `reply` is what the suggestion route answered,
      `None` when the request failed. A suggestion fills the application
      fields and moves to step 2; otherwise nothing changes. */
    method HandleAIGeneration(reply: Option<SuggestRoute.Reply>) returns (request: map<string, string>)
      modifies this
      ensures request == SuggestRequest(old(form))
      ensures reply.Some? && reply.value.Ok? ==>
        var s := reply.value.suggestion;
        form.email == s.correo && form.empresa == s.nombre && form.personalizado == s.parrafo &&
        (forall f :: f !in ApplicationFields ==> form.Get(f) == old(form).Get(f)) &&
        step == 2
      ensures !(reply.Some? && reply.value.Ok?) ==> form == old(form) && step == old(step)
      ensures subStep == old(subStep) && cvFile == old(cvFile)
    {
      request := SuggestRequest(form);
      if reply.Some? && reply.value.Ok? {
        var s := reply.value.suggestion;
        form := SetApplication(form, s.correo, s.nombre, s.parrafo);
        step := 2;
      }
    }

    /** `handleFileChange`: only a PDF replaces the held résumé. */
    method HandleFileChange(file: Option<File>)
      modifies this
      ensures cvFile == if file.Some? && file.value.mime == PdfType then file else old(cvFile)
      ensures cvFile.Some? ==> cvFile.value.mime == PdfType || cvFile == old(cvFile)
      ensures step == old(step) && subStep == old(subStep) && form == old(form)
    {
      if file.Some? && file.value.mime == PdfType {
        cvFile := file;
      }
    }
  }

  /** Proof helper: each field of the form, read through `Get`. */
  lemma GetFields(form: FormData)
    ensures form.Get(SenderEmail) == form.senderEmail && form.Get(SmtpKey) == form.smtpKey
    ensures form.Get(FullName) == form.fullName && form.Get(Phone) == form.phone
    ensures form.Get(Location) == form.location && form.Get(EducationLevel) == form.educationLevel
    ensures form.Get(Workstation) == form.workstation && form.Get(JobInfo) == form.jobInfo
    ensures form.Get(ExperienceLevel) == form.experienceLevel && form.Get(Linkedin) == form.linkedin
    ensures form.Get(Email) == form.email && form.Get(Empresa) == form.empresa
    ensures form.Get(Personalizado) == form.personalizado
  {
  }

  lemma BlockFields(form: FormData, sub: SubStepNo)
    ensures (forall f :: f in Required(sub) ==> form.Get(f) != "") <==>
      if sub == 1 then form.senderEmail != "" && form.smtpKey != ""
      else if sub == 2 then
        form.fullName != "" && form.phone != "" && form.location != "" && form.educationLevel != ""
      else form.workstation != "" && form.jobInfo != "" && form.experienceLevel != ""
  {
    GetFields(form);
  }

  lemma FilledFields(form: FormData)
    ensures (forall f :: f != Linkedin ==> form.Get(f) != "") <==>
      form.senderEmail != "" && form.smtpKey != "" && form.fullName != "" &&
      form.phone != "" && form.location != "" && form.educationLevel != "" &&
      form.workstation != "" && form.jobInfo != "" && form.experienceLevel != "" &&
      form.email != "" && form.empresa != "" && form.personalizado != ""
  {
    GetFields(form);
    if form.senderEmail != "" && form.smtpKey != "" && form.fullName != "" &&
      form.phone != "" && form.location != "" && form.educationLevel != "" &&
      form.workstation != "" && form.jobInfo != "" && form.experienceLevel != "" &&
      form.email != "" && form.empresa != "" && form.personalizado != ""
    {
      forall f | f != Linkedin
        ensures form.Get(f) != ""
      {
      }
    }
  }

  /** The send-email route never rejects the page's request as malformed:
      every checked field is sent as text. */
  lemma SubmitPassesValidation(form: FormData, cv: Option<File>)
    ensures SendEmail.FieldsValid(SubmitRequest(form, cv))
  {
    var parts := SubmitRequest(form, cv);
    forall f | f in SendEmail.CheckedFields
      ensures SendEmail.IsTextPart(parts, Name(f))
    {
      assert Name(f) in parts && parts[Name(f)] == SendEmail.TextPart(form.Get(f));
    }
  }

  /** The route simulates the page's send exactly when the sender address
      or the credential is empty, and otherwise reaches the relay. */
  lemma SubmitSimulatedIffNoCredentials(form: FormData, cv: Option<File>,
                                        config: SendEmail.MailConfig, relay: SendEmail.Relay)
    ensures var d := SendEmail.Post(SendEmail.Parts(SubmitRequest(form, cv)), config, relay);
      d.reply != SendEmail.Invalid &&
      (d.reply == SendEmail.Simulated <==> form.senderEmail == "" || form.smtpKey == "") &&
      (d.transporter <==> form.senderEmail != "" && form.smtpKey != "")
  {
    var parts := SubmitRequest(form, cv);
    SubmitPassesValidation(form, cv);
    assert parts[Name(SenderEmail)] == SendEmail.TextPart(form.senderEmail);
    assert parts[Name(SmtpKey)] == SendEmail.TextPart(form.smtpKey);
    assert SendEmail.Value(parts, SenderEmail) == form.senderEmail;
  }

  /** The page only enables sending for a valid form, and a valid form's
      send is never simulated: the transporter is created. */
  lemma ValidFormReachesRelay(form: FormData, cv: Option<File>,
                              config: SendEmail.MailConfig, relay: SendEmail.Relay)
    requires forall f :: f != Linkedin ==> form.Get(f) != ""
    ensures SendEmail.Post(SendEmail.Parts(SubmitRequest(form, cv)), config, relay).transporter
  {
    assert form.Get(SenderEmail) != "" && form.Get(SmtpKey) != "";
    SubmitSimulatedIffNoCredentials(form, cv, config, relay);
  }

  /** The page's résumé is the one attachment, typed as a PDF when the
      browser gave no type. */
  lemma SubmitAttachesResume(form: FormData, cv: Option<File>)
    ensures var a := SendEmail.Attachments(SubmitRequest(form, cv));
      (cv.None? ==> a == []) &&
      (cv.Some? ==> |a| == 1 && a[0].filename == cv.value.name && a[0].content == cv.value.content)
  {
  }

  /** The second mail template is chosen exactly when the typed credential
      equals the configured marker. */
  lemma SubmitTemplateChoice(form: FormData, cv: Option<File>, marker: string)
    ensures SendEmail.PersonalTemplateSelected(SubmitRequest(form, cv), marker) <==> form.smtpKey == marker
  {
    assert SubmitRequest(form, cv)[Name(SmtpKey)] == SendEmail.TextPart(form.smtpKey);
  }

  /** The page's suggestion request never selects the fixed-skills prompt,
      so the applicant's `jobInfo` appears in the prompt, which the
      inference step receives whenever the token is set. */
  lemma SuggestRequestUsesProfilePrompt(form: FormData, marker: string)
    ensures !SuggestRoute.FixedSkillsSelected(SuggestRequest(form), marker)
    ensures IsInfix(form.jobInfo, SuggestRoute.Prompt(SuggestRequest(form), marker))
  {
    var members := SuggestRequest(form);
    SuggestRoute.ProfilePromptCarriesJobInfo(members, marker);
    assert JobInfo in SuggestFields;
    assert SuggestRoute.Member(members, JobInfo) == form.jobInfo;
  }

  /** A readable answer of the suggestion route fills all three application
      fields with non-empty text, so the page can send right after. */
  lemma SuggestionFillsApplication(form: FormData, config: SuggestRoute.Config,
                                   inference: SuggestRoute.Inference, pick: nat)
    requires pick < |SuggestRoute.MockPool|
    ensures var h := SuggestRoute.Post(SuggestRoute.Members(SuggestRequest(form)), config, inference, pick);
      h.reply.Ok? && h.reply.suggestion.nombre != "" && h.reply.suggestion.correo != "" &&
      h.reply.suggestion.parrafo != ""
  {
  }
}

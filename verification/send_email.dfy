/** The send-email route (`POST /api/send-email`): it reads a multipart
    form, checks that twelve fields arrived as text, attaches the résumé when
    one was uploaded, simulates the send when the sender's credentials are
    empty, and otherwise authenticates with the mail relay, fills one of two
    HTML templates and sends the application. */
module SendEmail {
  import opened Wrappers
  import opened Form
  import opened Text
  import opened Template

  /** A value of the multipart form: text or an uploaded file. */
  datatype Part = TextPart(value: string) | FilePart(file: File)

  /** What `request.formData()` gives: an error message when the body
      cannot be read, or the parts by name. */
  datatype FormBody = Unreadable(message: string) | Parts(parts: map<string, Part>)

  /** A mail attachment. */
  datatype Attachment = Attachment(filename: string, content: seq<bv8>, contentType: string)

  /** The message handed to the relay. */
  datatype Mail = Mail(from: string, to: string, subject: string, html: string, attachments: seq<Attachment>)

  /** The relay: authentication (`verify`) fails, sending fails, or the
      message is accepted under an id. */
  datatype Relay = AuthRejected(message: string) | SendRejected(message: string) | Accepted(messageId: string)

  /** The process configuration: the relay account shown in `From` (the
      `SMTP_USER` variable) and the credential value that selects the second
      template. */
  datatype MailConfig = MailConfig(smtpUser: string, marker: string)

  const InvalidMessage := "Campos inválidos o faltantes"
  const SimulatedMessage := "Envío simulado"
  const InternalError := "Error interno"

  /** The JSON reply. */
  datatype Reply =
    | Invalid              // { ok: false, error: InvalidMessage }, status 400
    | Simulated            // { ok: true, message: SimulatedMessage }
    | Sent(messageId: string)   // { ok: true, messageId }
    | Failed(error: string)     // { ok: false, error }, status 500
  {
    function Status(): int {
      match this
      case Invalid => 400
      case Failed(_) => 500
      case _ => 200
    }

    predicate Ok() {
      Simulated? || Sent?
    }
  }

  /** The reply, whether a transporter was created, and the message handed
      to `sendMail` when it was called. */
  datatype Dispatch = Dispatch(reply: Reply, transporter: bool, mail: Option<Mail>)

  /** The twelve fields whose `typeof` must be `"string"`; `smtpKey` is not
      among them. */
  const CheckedFields: seq<Field> := [Email, Empresa, Personalizado, FullName, Workstation,
    JobInfo, ExperienceLevel, SenderEmail, Location, Phone, Linkedin, EducationLevel]

  predicate IsTextPart(parts: map<string, Part>, name: string) {
    name in parts && parts[name].TextPart?
  }

  /** The route's field check. */
  predicate FieldsValid(parts: map<string, Part>) {
    forall f :: f in CheckedFields ==> IsTextPart(parts, Name(f))
  }

  /** The text of a field (empty when it is not text). */
  function Value(parts: map<string, Part>, f: Field): string {
    if IsTextPart(parts, Name(f)) then parts[Name(f)].value else ""
  }

  /** The attachment list: one entry for an uploaded `cv` file, named after
      the file and typed by its MIME type, `application/pdf` when that is
      empty. */
  function Attachments(parts: map<string, Part>): (r: seq<Attachment>)
    ensures |r| <= 1
    ensures |r| == 1 <==> "cv" in parts && parts["cv"].FilePart?
    ensures |r| == 1 ==> r[0].filename == parts["cv"].file.name && r[0].content == parts["cv"].file.content
    ensures |r| == 1 ==> r[0].contentType == (if parts["cv"].file.mime == "" then "application/pdf" else parts["cv"].file.mime)
    ensures |r| == 1 ==> r[0].contentType != ""
  {
    if "cv" in parts && parts["cv"].FilePart? then
      var file := parts["cv"].file;
      [Attachment(file.name, file.content, if file.mime == "" then "application/pdf" else file.mime)]
    else []
  }

  /** `!senderEmail || !smtpKey`: the sender address is empty, or the
      credential is missing or empty. */
  predicate NoCredentials(parts: map<string, Part>) {
    Value(parts, SenderEmail) == "" || "smtpKey" !in parts || parts["smtpKey"] == TextPart("")
  }

  /** The second template is chosen when `smtpKey` equals the marker. */
  predicate PersonalTemplateSelected(parts: map<string, Part>, marker: string) {
    "smtpKey" in parts && parts["smtpKey"] == TextPart(marker)
  }

  /** `getEmailTemplate`: the interpolated fields in order, with the visible
      text between them, except the résumé and thanks paragraphs between
      the message and the contact block. Those two paragraphs, the footer,
      the HTML markup and the styling are not modelled. */
  const GeneralTemplate: seq<Piece> := [
    Lit("Candidatura - "), Slot(FullName),
    Lit(" Solicitud de Candidatura "), Slot(FullName), Lit(" - "), Slot(Workstation),
    Lit(" Estimado equipo de "), Slot(Empresa),
    Lit(", Soy "), Slot(FullName), Lit(", recién graduado en "), Slot(EducationLevel),
    Lit(" en "), Slot(Workstation), Lit(", y me gustaría presentar mi candidatura para un puesto "),
    Slot(ExperienceLevel), Lit(" en vuestro equipo de "), Slot(Workstation),
    Lit(". Tecnologías y Herramientas "), Slot(JobInfo),
    Lit(" ¿Por qué "), Slot(Empresa), Lit("? "), Slot(Personalizado),
    Lit(" Información de Contacto Email: "), Slot(SenderEmail), Lit(" "), Slot(SenderEmail),
    Lit(" Teléfono: "), Slot(Phone), Lit(" "), Slot(Phone),
    Lit(" LinkedIn: "), Slot(Linkedin), Lit(" "), Slot(Linkedin),
    Lit(" Ubicación:"), Slot(Location)
  ]

  const SkillsAndLinks := "Durante mis estudios he trabajado con: Lenguajes: HTML5, CSS3, JavaScript, PHP, Python, Java, C# Frameworks/Bibliotecas/IDEs: React, Angular, Bootstrap, Tailwind, Laravel, Eclipse, HeidiSQL Gestión de contenidos: WordPress Bases de datos: MySQL Control de versiones: Git / GitHub Mis proyectos y portafolio: GitHub: https://github.com/dani2f Portafolio: https://danielgomezfullstack.vercel.app"

  /** `getEmailTemplate2`: as the first, with a fixed skills list and the
      author's project links in place of `jobInfo`. */
  const PersonalTemplate: seq<Piece> := [
    Lit("Candidatura - "), Slot(FullName),
    Lit(" Solicitud de Candidatura "), Slot(FullName), Lit(" - "), Slot(Workstation),
    Lit(" Estimado equipo de "), Slot(Empresa),
    Lit(", Soy "), Slot(FullName), Lit(", recién graduado en "), Slot(EducationLevel),
    Lit(" en "), Slot(Workstation), Lit(", y me gustaría presentar mi candidatura para un puesto "),
    Slot(ExperienceLevel), Lit(" en vuestro equipo de "), Slot(Workstation),
    Lit(". Tecnologías y Herramientas "), Lit(SkillsAndLinks),
    Lit(" ¿Por qué "), Slot(Empresa), Lit("? "), Slot(Personalizado),
    Lit(" Información de Contacto Email: "), Slot(SenderEmail), Lit(" "), Slot(SenderEmail),
    Lit(" Teléfono: "), Slot(Phone), Lit(" "), Slot(Phone),
    Lit(" LinkedIn: "), Slot(Linkedin), Lit(" "), Slot(Linkedin),
    Lit(" Ubicación:"), Slot(Location)
  ]

  /** The template chosen for a request. */
  function TemplateFor(parts: map<string, Part>, marker: string): seq<Piece> {
    if PersonalTemplateSelected(parts, marker) then PersonalTemplate else GeneralTemplate
  }

  /** The message for a validated request. */
  function Compose(parts: map<string, Part>, config: MailConfig): Mail {
    Mail(
      "\"" + Value(parts, FullName) + "\" <" + config.smtpUser + ">",
      Value(parts, Email),
      "Candidatura " + Value(parts, Workstation) + " " + Value(parts, ExperienceLevel) + " – " + Value(parts, Empresa),
      Body(parts, config.marker),
      Attachments(parts))
  }

  /** The HTML body: the chosen template filled with the request's fields. */
  function Body(parts: map<string, Part>, marker: string): string {
    Render(TemplateFor(parts, marker), (f: Field) => Value(parts, f))
  }

  /** `err.message || "Error interno"`. */
  function ErrorText(message: string): (r: string)
    ensures r != ""
    ensures message != "" ==> r == message
  {
    if message == "" then InternalError else message
  }

  /** `POST` of the send-email route. */
  function Post(body: FormBody, config: MailConfig, relay: Relay): (d: Dispatch)
    ensures body.Unreadable? ==> d == Dispatch(Failed(ErrorText(body.message)), false, None)
    ensures body.Parts? && !FieldsValid(body.parts) ==> d == Dispatch(Invalid, false, None)
    ensures d.reply == Simulated <==> body.Parts? && FieldsValid(body.parts) && NoCredentials(body.parts)
    ensures d.transporter <==> body.Parts? && FieldsValid(body.parts) && !NoCredentials(body.parts)
    ensures d.mail.Some? <==> d.transporter && !relay.AuthRejected?
    ensures d.mail.Some? ==> d.mail.value == Compose(body.parts, config)
    ensures d.reply.Sent? <==> d.transporter && relay.Accepted?
    ensures d.reply.Sent? ==> d.reply.messageId == relay.messageId
    ensures d.reply == Invalid <==> body.Parts? && !FieldsValid(body.parts)
    ensures d.transporter && !relay.Accepted? ==> d.reply == Failed(ErrorText(relay.message))
    ensures d.reply.Failed? ==> d.reply.error != ""
    ensures d.reply.Ok() <==> d.reply.Status() == 200
  {
    match body
    case Unreadable(message) => Dispatch(Failed(ErrorText(message)), false, None)
    case Parts(parts) =>
      if !FieldsValid(parts) then Dispatch(Invalid, false, None)
      else if NoCredentials(parts) then Dispatch(Simulated, false, None)
      else
        match relay
        case AuthRejected(message) => Dispatch(Failed(ErrorText(message)), true, None)
        case SendRejected(message) => Dispatch(Failed(ErrorText(message)), true, Some(Compose(parts, config)))
        case Accepted(id) => Dispatch(Sent(id), true, Some(Compose(parts, config)))
  }

  /** A validated request's message goes to the submitted `email` with
      the subject `Candidatura <workstation> <experienceLevel> – <empresa>`. */
  lemma RecipientAndSubject(parts: map<string, Part>, config: MailConfig)
    requires FieldsValid(parts)
    ensures IsTextPart(parts, Name(Email)) && parts[Name(Email)].value == Compose(parts, config).to
    ensures IsTextPart(parts, Name(Workstation)) && IsTextPart(parts, Name(ExperienceLevel)) &&
      IsTextPart(parts, Name(Empresa))
    ensures Compose(parts, config).subject == "Candidatura " + parts[Name(Workstation)].value + " " +
      parts[Name(ExperienceLevel)].value + " – " + parts[Name(Empresa)].value
  {
    CheckedIsText(parts, Email, 0);
    CheckedIsText(parts, Empresa, 1);
    CheckedIsText(parts, Workstation, 4);
    CheckedIsText(parts, ExperienceLevel, 6);
    var m := Compose(parts, config);
    assert m.to == Value(parts, Email);
    assert m.subject == "Candidatura " + Value(parts, Workstation) + " " +
      Value(parts, ExperienceLevel) + " – " + Value(parts, Empresa);
  }

  /** A checked field of a validated request is text, and `Value` reads it. */
  lemma CheckedIsText(parts: map<string, Part>, f: Field, k: nat)
    requires FieldsValid(parts)
    requires k < |CheckedFields| && CheckedFields[k] == f
    ensures IsTextPart(parts, Name(f)) && Value(parts, f) == parts[Name(f)].value
  {
    assert f in CheckedFields;
  }

  /** A request without any one of the checked fields is rejected before
      anything else happens. */
  lemma MissingFieldRejected(parts: map<string, Part>, config: MailConfig, relay: Relay, f: Field)
    requires f in CheckedFields && Name(f) !in parts
    ensures Post(Parts(parts), config, relay) == Dispatch(Invalid, false, None)
  {
  }

  lemma GeneralTemplateHasJobInfo()
    ensures Slot(JobInfo) in GeneralTemplate
  {
    assert GeneralTemplate[19] == Slot(JobInfo);
  }

  lemma PersonalTemplateLacksJobInfo()
    ensures Slot(JobInfo) !in PersonalTemplate
  {
  }

  lemma TemplatesHaveCompanyAndMessage()
    ensures Slot(Empresa) in GeneralTemplate && Slot(Personalizado) in GeneralTemplate
    ensures Slot(Empresa) in PersonalTemplate && Slot(Personalizado) in PersonalTemplate
  {
    assert GeneralTemplate[7] == Slot(Empresa) && GeneralTemplate[23] == Slot(Personalizado);
    assert PersonalTemplate[7] == Slot(Empresa) && PersonalTemplate[23] == Slot(Personalizado);
  }

  /** Whichever template is chosen, the body carries the company and the
      personalised message; the general template also carries `jobInfo`. */
  lemma BodyCarriesFields(parts: map<string, Part>, config: MailConfig)
    ensures IsInfix(Value(parts, Empresa), Body(parts, config.marker))
    ensures IsInfix(Value(parts, Personalizado), Body(parts, config.marker))
    ensures !PersonalTemplateSelected(parts, config.marker) ==>
      IsInfix(Value(parts, JobInfo), Body(parts, config.marker))
  {
    var value := (f: Field) => Value(parts, f);
    var t := TemplateFor(parts, config.marker);
    TemplatesHaveCompanyAndMessage();
    GeneralTemplateHasJobInfo();
    RenderContains(t, value, Empresa);
    RenderContains(t, value, Personalizado);
    if !PersonalTemplateSelected(parts, config.marker) {
      RenderContains(t, value, JobInfo);
    }
  }

  /** With the second template the body does not depend on `jobInfo`. */
  lemma PersonalBodyIgnoresJobInfo(parts: map<string, Part>, config: MailConfig, other: string)
    requires PersonalTemplateSelected(parts, config.marker)
    ensures Body(parts["jobInfo" := TextPart(other)], config.marker) == Body(parts, config.marker)
  {
    SelectionIgnoresJobInfo(parts, config.marker, other);
    PersonalRenderIgnoresJobInfo(parts, other);
  }

  lemma SelectionIgnoresJobInfo(parts: map<string, Part>, marker: string, other: string)
    ensures PersonalTemplateSelected(parts["jobInfo" := TextPart(other)], marker) ==
      PersonalTemplateSelected(parts, marker)
  {
  }

  lemma PersonalRenderIgnoresJobInfo(parts: map<string, Part>, other: string)
    ensures Render(PersonalTemplate, (f: Field) => Value(parts["jobInfo" := TextPart(other)], f)) ==
      Render(PersonalTemplate, (f: Field) => Value(parts, f))
  {
    var p2 := parts["jobInfo" := TextPart(other)];
    PersonalTemplateLacksJobInfo();
    forall f | Slot(f) in PersonalTemplate
      ensures Value(p2, f) == Value(parts, f)
    {
      if Name(f) == "jobInfo" {
        NameInjective(f, JobInfo);
      }
    }
    RenderIgnores(PersonalTemplate, (f: Field) => Value(p2, f), (f: Field) => Value(parts, f));
  }
}

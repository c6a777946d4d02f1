/** The applicant form shared by the page and the two API routes: the
    thirteen text fields of the wizard's `formData`, their wire names, and
    the résumé file chosen in the browser. */
module Form {

  /** The thirteen fields of the wizard's form, in declaration order. */
  datatype Field =
    | SenderEmail | SmtpKey | FullName | Phone | Location | EducationLevel
    | Workstation | JobInfo | ExperienceLevel | Linkedin
    | Email | Empresa | Personalizado

  /** The name under which a field travels in a form or JSON body. */
  function Name(f: Field): string {
    match f
    case SenderEmail => "senderEmail"
    case SmtpKey => "smtpKey"
    case FullName => "fullName"
    case Phone => "phone"
    case Location => "location"
    case EducationLevel => "educationLevel"
    case Workstation => "workstation"
    case JobInfo => "jobInfo"
    case ExperienceLevel => "experienceLevel"
    case Linkedin => "linkedin"
    case Email => "email"
    case Empresa => "empresa"
    case Personalizado => "personalizado"
  }

  /** Distinct fields travel under distinct names, so a body keyed by name
      loses nothing. */
  lemma NameInjective(f: Field, g: Field)
    requires Name(f) == Name(g)
    ensures f == g
  {
  }

  /** A file picked in the browser: its name, its MIME type (possibly empty)
      and its bytes. */
  datatype File = File(name: string, mime: string, content: seq<bv8>)

  /** The wizard's form record. */
  datatype FormData = FormData(
    senderEmail: string, smtpKey: string, fullName: string, phone: string,
    location: string, educationLevel: string, workstation: string,
    jobInfo: string, experienceLevel: string, linkedin: string,
    email: string, empresa: string, personalizado: string)
  {
    /** The value of one field. */
    function Get(f: Field): string {
      match f
      case SenderEmail => senderEmail
      case SmtpKey => smtpKey
      case FullName => fullName
      case Phone => phone
      case Location => location
      case EducationLevel => educationLevel
      case Workstation => workstation
      case JobInfo => jobInfo
      case ExperienceLevel => experienceLevel
      case Linkedin => linkedin
      case Email => email
      case Empresa => empresa
      case Personalizado => personalizado
    }

    /** The record `{ ...this, [f]: v }`: field `f` becomes `v`, every other
        field keeps its value. */
    function With(f: Field, v: string): (r: FormData)
      ensures r.Get(f) == v
      ensures forall g :: g != f ==> r.Get(g) == Get(g)
    {
      match f
      case SenderEmail => this.(senderEmail := v)
      case SmtpKey => this.(smtpKey := v)
      case FullName => this.(fullName := v)
      case Phone => this.(phone := v)
      case Location => this.(location := v)
      case EducationLevel => this.(educationLevel := v)
      case Workstation => this.(workstation := v)
      case JobInfo => this.(jobInfo := v)
      case ExperienceLevel => this.(experienceLevel := v)
      case Linkedin => this.(linkedin := v)
      case Email => this.(email := v)
      case Empresa => this.(empresa := v)
      case Personalizado => this.(personalizado := v)
    }
  }

  /** Proof helper: two records that agree on every field are the same record. */
  lemma FieldsDetermineForm(a: FormData, b: FormData)
    requires forall f :: a.Get(f) == b.Get(f)
    ensures a == b
  {
    assert a.Get(SenderEmail) == b.Get(SenderEmail) && a.Get(SmtpKey) == b.Get(SmtpKey);
    assert a.Get(FullName) == b.Get(FullName) && a.Get(Phone) == b.Get(Phone);
    assert a.Get(Location) == b.Get(Location) && a.Get(EducationLevel) == b.Get(EducationLevel);
    assert a.Get(Workstation) == b.Get(Workstation) && a.Get(JobInfo) == b.Get(JobInfo);
    assert a.Get(ExperienceLevel) == b.Get(ExperienceLevel) && a.Get(Linkedin) == b.Get(Linkedin);
    assert a.Get(Email) == b.Get(Email) && a.Get(Empresa) == b.Get(Empresa);
    assert a.Get(Personalizado) == b.Get(Personalizado);
  }

  /** Typing a field's current value again leaves the form as it is. */
  lemma WithSameValue(form: FormData, f: Field)
    ensures form.With(f, form.Get(f)) == form
  {
    FieldsDetermineForm(form.With(f, form.Get(f)), form);
  }

  /** Only the last value typed into a field counts. */
  lemma WithOverwrites(form: FormData, f: Field, a: string, b: string)
    ensures form.With(f, a).With(f, b) == form.With(f, b)
  {
    FieldsDetermineForm(form.With(f, a).With(f, b), form.With(f, b));
  }

  /** The initial form: every field empty. */
  const Blank := FormData("", "", "", "", "", "", "", "", "", "", "", "", "")
}

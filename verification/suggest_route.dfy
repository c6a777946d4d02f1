/** The suggestion route (`POST /api/sugerir-empresa`): it reads the JSON
    body, chooses a prompt, asks the language model for a completion when an
    inference token is configured, extracts a suggestion from the completion
    and falls back to a fixed pool of companies whenever there is no token,
    the inference call fails or the extraction is incomplete. */
module SuggestRoute {
  import opened Wrappers
  import opened Form
  import opened Text
  import opened Template
  import opened SuggestPrompts
  import opened SuggestExtract

  /** What reading the body gives: an error message when `request.json()`
      throws on text that is not JSON, or when destructuring a `null` body
      throws; otherwise the (string) members by name. Any other JSON value,
      such as an array or a number, reads as having no members. */
  datatype JsonBody = Unreadable(message: string) | Members(members: map<string, string>)

  /** The process configuration: the inference token (`""` when unset) and
      the credential value that selects the fixed-skills prompt. */
  datatype Config = Config(hfToken: string, marker: string)

  /** The outcome of the inference step — loading the client library with
      the dynamic `import` and then the chat-completion call: either of them
      throws, or the call answers with the content of the first choice,
      which may be missing. */
  datatype Inference = Threw(message: string) | Answered(content: Option<string>)

  /** The JSON reply: `{ ok: true, nombre, correo, parrafo }` or
      `{ ok: false, error }`. */
  datatype Reply = Ok(suggestion: Suggestion) | Error(error: string)

  /** The reply, and the prompt built for the model when the route went on
      to the inference step. Whether the prompt actually reached the model is
      not told apart: a failing `import` and a failing call are both
      `Threw`. */
  datatype Handled = Handled(reply: Reply, prompt: Option<string>)

  /** The fallback companies of `getMockResponse`. */
  const MockPool: seq<Suggestion> := [Tecnalia, Serbatic, Izertis, NttData, Babel]

  const Tecnalia := Suggestion("Tecnalia Research & Innovation", "rrhh@tecnalia.com",
    "Me llama mucho la atención Tecnalia porque admiro vuestro enfoque ...")
  const Serbatic := Suggestion("Serbatic", "careers@serbatic.com",
    "Serbatic me resulta muy interesante por vuestra especialización ...")
  const Izertis := Suggestion("Izertis", "empleo@izertis.com",
    "Me atrae mucho Izertis por ser una empresa tecnológica ...")
  const NttData := Suggestion("Everis (NTT Data)", "rrhh.euskadi@nttdata.com",
    "NTT Data me parece una empresa fascinante ...")
  const Babel := Suggestion("Babel", "seleccion@babel.es",
    "Babel me llama la atención por vuestro enfoque ...")

  /** Every fallback entry is a suggestion the route may return: its fields
      are non-empty and its email passes the route's own email pattern. */
  lemma MockPoolWellFormed()
    ensures |MockPool| == 5
    ensures forall k :: 0 <= k < |MockPool| ==> WellFormed(MockPool[k])
  {
    forall k | 0 <= k < |MockPool|
      ensures WellFormed(MockPool[k])
    {
      if k == 0 {
        TecnaliaWellFormed();
      } else if k == 1 {
        SerbaticWellFormed();
      } else if k == 2 {
        IzertisWellFormed();
      } else if k == 3 {
        NttDataWellFormed();
      } else {
        BabelWellFormed();
      }
    }
  }

  lemma TecnaliaWellFormed() ensures WellFormed(Tecnalia) && HasEmail(Tecnalia.correo) {
    WitnessedWellFormed(Tecnalia, 4, 13);
  }
  lemma SerbaticWellFormed() ensures WellFormed(Serbatic) && HasEmail(Serbatic.correo) {
    WitnessedWellFormed(Serbatic, 7, 16);
  }
  lemma IzertisWellFormed() ensures WellFormed(Izertis) && HasEmail(Izertis.correo) {
    WitnessedWellFormed(Izertis, 6, 14);
  }
  lemma NttDataWellFormed() ensures WellFormed(NttData) && HasEmail(NttData.correo) {
    WitnessedWellFormed(NttData, 12, 20);
  }
  lemma BabelWellFormed() ensures WellFormed(Babel) && HasEmail(Babel.correo) {
    WitnessedWellFormed(Babel, 9, 15);
  }

  /** A suggestion whose email is printable ASCII without spaces and has
      its `'@'` at `p` and a `'.'` at `q`. */
  lemma WitnessedWellFormed(s: Suggestion, p: nat, q: nat)
    requires s.nombre != "" && s.parrafo != ""
    requires forall k :: 0 <= k < |s.correo| ==> '!' <= s.correo[k] <= '~'
    requires 1 <= p && p + 2 <= q <= |s.correo| - 2 && s.correo[p] == '@' && s.correo[q] == '.'
    ensures WellFormed(s) && HasEmail(s.correo)
  {
    EmailTokenMatchesItself(s.correo);
  }

  /** A destructured member of the body; a missing one is `undefined`, which
      a template literal renders as the text "undefined". */
  function Member(members: map<string, string>, f: Field): string {
    if Name(f) in members then members[Name(f)] else "undefined"
  }

  /** The fixed-skills prompt is chosen when `smtpKey` equals the marker. */
  predicate FixedSkillsSelected(members: map<string, string>, marker: string) {
    "smtpKey" in members && members["smtpKey"] == marker
  }

  /** The prompt the route builds for a body. */
  function Prompt(members: map<string, string>, marker: string): string {
    var value := (f: Field) => Member(members, f);
    if FixedSkillsSelected(members, marker) then Render(FixedSkillsPrompt, value)
    else Render(ProfilePrompt, value)
  }

  /** With the profile prompt the applicant's `jobInfo` reaches the model. */
  lemma ProfilePromptCarriesJobInfo(members: map<string, string>, marker: string)
    requires !FixedSkillsSelected(members, marker)
    ensures IsInfix(Member(members, JobInfo), Prompt(members, marker))
  {
    ProfilePromptHasJobInfo();
    RenderContains(ProfilePrompt, (f: Field) => Member(members, f), JobInfo);
  }

  /** With the fixed-skills prompt the applicant's `jobInfo` is ignored: any
      other value gives the same prompt. */
  lemma FixedSkillsPromptIgnoresJobInfo(members: map<string, string>, marker: string, other: string)
    requires FixedSkillsSelected(members, marker)
    ensures Prompt(members["jobInfo" := other], marker) == Prompt(members, marker)
  {
    var m2 := members["jobInfo" := other];
    assert FixedSkillsSelected(m2, marker);
    FixedSkillsPromptLacksJobInfo();
    forall f | Slot(f) in FixedSkillsPrompt
      ensures Member(m2, f) == Member(members, f)
    {
      assert f != JobInfo;
      if Name(f) == "jobInfo" {
        NameInjective(f, JobInfo);
      }
    }
    RenderIgnores(FixedSkillsPrompt, (f: Field) => Member(m2, f), (f: Field) => Member(members, f));
  }

  /** `POST` of the suggestion route. `pick` is the fallback entry
      `Math.floor(Math.random() * 5)` selects. */
  function Post(body: JsonBody, config: Config, inference: Inference, pick: nat): (h: Handled)
    requires pick < |MockPool|
    ensures body.Unreadable? ==> h == Handled(Error(body.message), None)
    ensures body.Members? ==> h.reply.Ok? && WellFormed(h.reply.suggestion)
    ensures h.prompt.Some? <==> body.Members? && config.hfToken != ""
    ensures h.prompt.Some? ==> h.prompt.value == Prompt(body.members, config.marker)
    ensures h.reply.Ok? ==>
      (h.reply.suggestion == MockPool[pick] ||
       (h.prompt.Some? && inference.Answered? && Extract(inference.content.GetOr("")) == Some(h.reply.suggestion)))
    ensures (body.Members? && config.hfToken != "" && inference.Answered? &&
             Extract(inference.content.GetOr("")).Some?) ==>
      h.reply == Ok(Extract(inference.content.GetOr("")).value)
  {
    MockPoolWellFormed();
    match body
    case Unreadable(message) => Handled(Error(message), None)
    case Members(members) =>
      var prompt := Prompt(members, config.marker);
      var mock := Ok(MockPool[pick]);
      if config.hfToken == "" then Handled(mock, None)
      else
        match inference
        case Threw(_) => Handled(mock, Some(prompt))
        case Answered(content) =>
          match Extract(content.GetOr(""))
          case Some(s) => Handled(Ok(s), Some(prompt))
          case None => Handled(mock, Some(prompt))
  }

  /** A completion without any email-shaped line always ends in the fallback
      pool. */
  lemma NoEmailFallsBack(members: map<string, string>, config: Config, content: string, pick: nat)
    requires pick < |MockPool|
    requires forall l :: l in CleanLines(content) ==> !HasEmail(l)
    ensures Post(Members(members), config, Answered(Some(content)), pick).reply == Ok(MockPool[pick])
  {
    NoEmailNoSuggestion(content);
    NoSuggestionFallsBack(members, config, content, pick);
  }

  /** An answer the extractor finds nothing in ends in the fallback pool. */
  lemma NoSuggestionFallsBack(members: map<string, string>, config: Config, content: string, pick: nat)
    requires pick < |MockPool|
    requires Extract(content).None?
    ensures Post(Members(members), config, Answered(Some(content)), pick).reply == Ok(MockPool[pick])
  {
  }
}

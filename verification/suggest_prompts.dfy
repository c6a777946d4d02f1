/** The two prompts the suggestion route can send to the language model.
    Each is a template literal over the applicant's profile; the first embeds
    the applicant's own skills text (`jobInfo`), the second a fixed skills
    list and portfolio link in its place. */
module SuggestPrompts {
  import opened Form
  import opened Template

  /** `getPrompt(workstation, jobInfo, experienceLevel, location,
      educationLevel)`. */
  const ProfilePrompt: seq<Piece> := [
    Lit("Eres un asistente de reclutamiento para un perfil "),
    Slot(ExperienceLevel),
    Lit(" de "),
    Slot(Workstation),
    Lit(" con base en "),
    Slot(Location),
    Lit(Text1),
    Slot(EducationLevel),
    Lit(" en "),
    Slot(Workstation),
    Lit(" y aqui tienes mas informacion sobre mí:\n\n  "),
    Slot(JobInfo),
    Lit(Text2),
    Slot(Location),
    Lit(" o a ≤ 20 min en bus/metro.\n\n  Se dedica a "),
    Slot(Workstation),
    Lit(".\n\n  Acepta perfiles "),
    Slot(ExperienceLevel),
    Lit(Text3),
    Slot(Workstation),
    Lit(Text4),
    Slot(Workstation),
    Lit(Text5)
  ]

  /** `getPrompt2(workstation, experienceLevel, location, educationLevel)`:
      it takes no `jobInfo`. */
  const FixedSkillsPrompt: seq<Piece> := [
    Lit("Eres un asistente de reclutamiento para un perfil "),
    Slot(ExperienceLevel),
    Lit(" de "),
    Slot(Workstation),
    Lit(" con base en "),
    Slot(Location),
    Lit(Text1),
    Slot(EducationLevel),
    Lit(" en "),
    Slot(Workstation),
    Lit(Text6),
    Slot(Location),
    Lit(" o a ≤ 20 min en bus/metro.\n\nSe dedica a "),
    Slot(Workstation),
    Lit(", apps o soluciones digitales.\n\nAcepta perfiles "),
    Slot(ExperienceLevel),
    Lit(Text7),
    Slot(Workstation),
    Lit(Text8)
  ]

  // The fixed text between the interpolations.
  const Text1 := " (o a un máximo de 20 minutos en transporte público). El candidato acaba de finalizar un "
  const Text2 := "\n\n  debes devolver exactamente una empresa nueva que no hayas mencionado antes y que cumpla todos estos criterios:\n\n  Tiene oficina en "
  const Text3 := ".\n\n  Dispone de un correo electrónico válido para envío de CV o, si no tiene, no me lo propongas.\n\n  Tu respuesta debe incluir:\n\n  Nombre de la empresa\n\n  dirección de email (solo direccion de email)\n\n  Párrafo personalizado (1–2 frases) dirigiéndote directamente a su equipo y explicando el porque el mi perfil podria ser bueno para su empresa, te muestro un ejemplo de un correo que ya he enviado (este es un ejemplo para un desarrollador web, pero hazlo enfocado en "
  const Text4 := "):\n\n  “Me interesa mucho Ideable porque admiro vuestro trabajo en procesos de transformación digital y el desarrollo de soluciones IoT y web a medida, especialmente el éxito de Kwido en el sector de la salud. Creo que formar parte de un equipo que combina innovación (IoT, VR, Big Data, Cloud) con proyectos reales para industria y administración pública me ayudaría a consolidar mis competencias en desarrollo de software mientras aporto mis ganas de aprender y mi base en WordPress.”\n\n  IMPORTANTE:No listes varias empresas: solo una por respuesta. No repitas ninguna ya sugerida. Ademas asegurate de que esa empresa y su correo existan dentro del mundo del "
  const Text5 := ". El parrafo personalizado tiene que tener mas o menos los caracteres del ejemplo que te he puesto, no simules el parrafo personalizado y pongas ... Tampoco pongas notas ni comillas, solo lo que se pide"
  const Text6 := " y domina:\n\nLenguajes: HTML5, CSS3, JavaScript, PHP, Python, Java, C#\n\nFrameworks / IDEs: React, Angular, Bootstrap, Tailwind, Laravel, Eclipse, HeidiSQL\n\nCMS: WordPress\n\nBases de datos: MySQL\n\nControl de versiones: Git / GitHub\n\nPortafolio: https://danielgomezfullstack.vercel.app/\n\ndebes devolver exactamente una empresa nueva que no hayas mencionado antes y que cumpla todos estos criterios:\n\nTiene oficina en "
  const Text7 := ".\n\nDispone de un correo electrónico válido para envío de CV o, si no tiene, no me lo propongas.\n\nTu respuesta debe incluir:\n\nNombre de la empresa\n\ndirección de email (solo direccion de email)\n\nPárrafo personalizado (1–2 frases) dirigiéndote directamente a su equipo y explicando el porque el mi perfil podria ser bueno para su empresa, te muestro un ejemplo de un correo que ya he enviado:\n\n“Me interesa mucho Ideable porque admiro vuestro trabajo en procesos de transformación digital y el desarrollo de soluciones IoT y web a medida, especialmente el éxito de Kwido en el sector de la salud. Creo que formar parte de un equipo que combina innovación (IoT, VR, Big Data, Cloud) con proyectos reales para industria y administración pública me ayudaría a consolidar mis competencias en desarrollo de software mientras aporto mis ganas de aprender y mi base en WordPress.”\n\nIMPORTANTE:No listes varias empresas: solo una por respuesta. No repitas ninguna ya sugerida. Ademas asegurate de que esa empresa y su correo existan dentro del mundo del "
  const Text8 := ", apps o soluciones digitales. El parrafo personalizado tiene que tener mas o menos los caracteres del ejemplo que te he puesto, no simules el parrafo personalizado y pongas ... Tampoco pongas notas ni comillas, solo lo que se pide"

  /** The profile prompt interpolates `jobInfo`. */
  lemma ProfilePromptHasJobInfo()
    ensures Slot(JobInfo) in ProfilePrompt
  {
    assert ProfilePrompt[11] == Slot(JobInfo);
  }

  /** The fixed-skills prompt does not. */
  lemma FixedSkillsPromptLacksJobInfo()
    ensures Slot(JobInfo) !in FixedSkillsPrompt
  {
  }
}

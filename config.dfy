/** The configuration data the intake core reads: the fixed interview
    questions and the symptom-category taxonomy offered to the analyzer. */
module Config {

  /** One interview question as configured: its id, heading and prompt text. */
  datatype QuestionConfig = QuestionConfig(id: int, title: string, text: string)

  /** One symptom category of the taxonomy. */
  datatype Category = Category(id: string, name: string, description: string)

  /** The question ids that the upload, transcription and batch handlers accept
      and visit, written out in those handlers as the literal list `[1, 2, 3]`. */
  const QuestionIds: seq<int> := [1, 2, 3]

  /** The configured questions, in the order the views list them. */
  const Questions: seq<QuestionConfig> := [
    QuestionConfig(1, "Your Main Concerns",
      "What are the top three things you'd most like help with right now? Please describe the symptoms or problems that matter most to you today."),
    QuestionConfig(2, "Timeline",
      "How long have you been experiencing these symptoms? You can give an approximate timeline (for example: weeks, months, or since a specific illness or date)."),
    QuestionConfig(3, "Daily Impact",
      "How are these symptoms affecting your day-to-day life right now? Tell us what you struggle to do or can no longer do\U{2014}such as work or school, physical activity, sleep, thinking or memory, or emotional well-being.")
  ]

  /** The symptom categories, in the order the analyzer lists them. */
  const SymptomCategories: seq<Category> := [
    Category("energy_crash", "Low Energy & Post-Exertion Crashes",
      "Running out of energy quickly and feeling worse after physical or mental effort."),
    Category("orthostatic_intolerance", "Dizziness, Heart Racing & Standing Problems",
      "Feeling lightheaded, dizzy, or unwell when standing or being upright."),
    Category("brain_fog", "Brain Fog & Mental Fatigue",
      "Difficulty thinking clearly, focusing, remembering, or processing information."),
    Category("sleep_dysregulation", "Sleep That Doesn't Restore Me",
      "Trouble sleeping or waking up feeling unrefreshed despite adequate sleep time."),
    Category("breathlessness", "Shortness of Breath & Air Hunger",
      "Breathing feels difficult, shallow, or unsatisfying, at rest or with activity."),
    Category("chest_heart", "Chest Discomfort & Heart Sensations",
      "Chest pain, tightness, palpitations, or unusual awareness of heartbeat."),
    Category("headache_migraine", "Headaches & Migraine-Like Symptoms",
      "Frequent headaches, pressure, migraines, or sensitivity to light and sound."),
    Category("musculoskeletal_pain", "Body Pain, Aches & Muscle Weakness",
      "Widespread pain, soreness, stiffness, or feelings of physical weakness."),
    Category("neuropathy", "Tingling, Burning & Nerve Sensations",
      "Numbness, tingling, burning, buzzing, or other unusual nerve sensations."),
    Category("gastrointestinal", "Stomach, Digestion & Food Sensitivity Issues",
      "Digestive problems such as nausea, bloating, diarrhea, constipation, or food reactions."),
    Category("ent_sensory", "Smell, Taste & Ear\U{2013}Nose\U{2013}Throat Changes",
      "Changes to smell or taste, sinus issues, ear pressure, or tinnitus."),
    Category("temperature_flares", "Temperature Sensitivity & Flu-Like Flares",
      "Feeling unusually hot or cold, sweating, chills, or flu-like sensations without infection."),
    Category("reactivity", "Allergy-Like Reactions & Body Over-Reactivity",
      "Strong reactions to foods, smells, environments, or medications."),
    Category("mood_emotional", "Mood Changes, Anxiety & Emotional Swings",
      "Anxiety, depression, irritability, or emotional changes that feel physically driven."),
    Category("genitourinary", "Bladder, Sexual & Pelvic Changes",
      "Changes in bladder function, pelvic discomfort, or sexual health."),
    Category("multisystem", "Multiple Systems & Relapsing Symptoms",
      "Many symptoms across the body that flare, improve, and return over time.")
  ]

  /** The configured questions carry exactly the ids the handlers accept, in the same order. */
  lemma QuestionIdsMatchConfig()
    ensures |Questions| == |QuestionIds|
    ensures forall i :: 0 <= i < |Questions| ==> Questions[i].id == QuestionIds[i]
  {
  }
}

/** `_get_prompt` and the request `parse_resume` sends with it. */
module Prompting {
  import opened Basics

  const MODEL_NAME := "gemini-2.5-flash"
  const TEMPERATURE: real := 0.1
  const MAX_OUTPUT_TOKENS: nat := 2000

  // The instructions placed before the resume text, line by line.
  const INTRO := "You are an expert resume parser. Extract the following information from the resume and respond ONLY with valid JSON, no markdown formatting:\n\n"
  const OPEN_BRACE := "{\n"
  const NAME_FIELD := "  \"name\": \"Full name\",\n"
  const PHONE_FIELD := "  \"phone\": \"Phone number or null if not found\",\n"
  const EMAIL_FIELD := "  \"email\": \"Email address or null if not found\",\n"
  const POSITION_FIELD := "  \"position\": \"Current or most recent job position/title or null if not found\",\n"
  const SUMMARY_FIELD := "  \"summary\": \"Brief professional summary (2-3 sentences) or null\",\n"
  const PRIMARY_SKILLS_FIELD := "  \"primarySkills\": [\"List of 5-8 core technical skills\"],\n"
  const SECONDARY_SKILLS_FIELD := "  \"secondarySkills\": [\"List of additional supporting skills\"],\n"
  const EXPERIENCE_FIELD := "  \"experience\": \"Years of professional experience or null\",\n"
  const EDUCATION_FIELD := "  \"education\": \"Highest education qualification or null\",\n"
  const SKILLS_SOURCE_FIELD := "  \"skillsSource\": \"Brief explanation of how skills were determined\"\n"
  const CLOSE_BRACE := "}\n\n"
  const INSTRUCTIONS_HEADING := "Instructions:\n"
  const RULE_1 := "1. Extract name, phone, email, and position directly from the resume\n"
  const RULE_2 := "2. Identify primary skills as core technical competencies mentioned most frequently\n"
  const RULE_3 := "3. Identify secondary skills as supporting technologies and tools\n"
  const RULE_4 := "4. If skills aren't explicitly listed, infer from projects, work experience, and education\n"
  const RULE_5 := "5. Return ONLY valid JSON with no markdown backticks, no preamble, no explanation\n"
  const RULE_6 := "6. Use null for any field that cannot be determined\n"
  const RULE_7 := "7. Ensure all arrays and strings are properly quoted\n\n"
  const RESUME_HEADING := "Resume:\n"

  // The same lines grouped by the part of the prompt they make up.
  const CONTACT_FIELDS: string := NAME_FIELD + PHONE_FIELD + EMAIL_FIELD + POSITION_FIELD
  const SKILL_FIELDS: string := SUMMARY_FIELD + PRIMARY_SKILLS_FIELD + SECONDARY_SKILLS_FIELD
  const BACKGROUND_FIELDS: string := EXPERIENCE_FIELD + EDUCATION_FIELD + SKILLS_SOURCE_FIELD
  /** The JSON shape the reply must have. */
  const FIELDS: string := OPEN_BRACE + CONTACT_FIELDS + SKILL_FIELDS + BACKGROUND_FIELDS + CLOSE_BRACE
  const EXTRACTION_RULES: string := RULE_1 + RULE_2 + RULE_3 + RULE_4
  const OUTPUT_RULES: string := RULE_5 + RULE_6 + RULE_7
  const RULES: string := INSTRUCTIONS_HEADING + EXTRACTION_RULES + OUTPUT_RULES

  /** The instructions, ending with "Resume:" and a newline. */
  const TEMPLATE: string := (INTRO + FIELDS) + (RULES + RESUME_HEADING)

  /** One `generate_content` call: the model, the prompt and the generation settings. */
  datatype Request = Request(model: string, prompt: string, temperature: real, maxOutputTokens: nat)

  /** The model of `_get_prompt` for a given template (the parser's is
      `TEMPLATE`): the template followed by the resume text. */
  function PromptFor(template: string, resumeText: string): (p: string)
    ensures |p| == |template| + |resumeText|
    ensures p[..|template|] == template && p[|template|..] == resumeText
  {
    template + resumeText
  }

  /** The request every attempt of `parse_resume` sends for a resume text. */
  function RequestFor(template: string, resumeText: string): Request {
    Request(MODEL_NAME, PromptFor(template, resumeText), TEMPERATURE, MAX_OUTPUT_TOKENS)
  }

  /** The resume text a prompt was built from, if it was built from `template`. */
  function ResumeTextOf(template: string, prompt: string): (t: Option<string>)
    ensures t.Some? <==> |prompt| >= |template| && prompt[..|template|] == template
  {
    if |prompt| >= |template| && prompt[..|template|] == template then Some(prompt[|template|..]) else None
  }

  /** The resume text is recovered from its prompt. */
  lemma PromptRoundTrip(template: string, resumeText: string)
    ensures ResumeTextOf(template, PromptFor(template, resumeText)) == Some(resumeText)
  {
  }

  /** A prompt that is recovered from is the prompt of what was recovered. */
  lemma ResumeTextRoundTrip(template: string, prompt: string)
    requires ResumeTextOf(template, prompt).Some?
    ensures PromptFor(template, ResumeTextOf(template, prompt).value) == prompt
  {
    assert prompt == prompt[..|template|] + prompt[|template|..];
  }

  /** Different resume texts are sent as different requests, all with the
      same model and settings. */
  lemma RequestsDetermineText(template: string, t1: string, t2: string)
    ensures RequestFor(template, t1) == RequestFor(template, t2) <==> t1 == t2
    ensures RequestFor(template, t1).model == RequestFor(template, t2).model == "gemini-2.5-flash"
    ensures RequestFor(template, t1).temperature == 0.1 && RequestFor(template, t1).maxOutputTokens == 2000
  {
    if RequestFor(template, t1) == RequestFor(template, t2) {
      PromptRoundTrip(template, t1);
      PromptRoundTrip(template, t2);
    }
  }
}

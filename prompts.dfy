/**
 * The reflection prompt (utils/prompts.ts): a fixed instruction preamble, the user's
 * message, then the optional mood, journal and tasks lines, then the cue the reply
 * starts after.
 */
module Prompts {
  import opened Optional
  import Text

  /** The data the prompt is built from; `None` is a null field. */
  datatype PromptData = PromptData(
    userMessage: string,
    mood: Option<int>,
    moodName: Option<string>,
    journal: Option<string>,
    tasks: Option<string>)

  const Preamble: string :=
    "You are Prism, the user's personal companion. You are a very kind and empathetic mentor. Your goal is to provide supportive and encouraging reflections to the user.\n"
    + "\n"
    + "Based on the provided user's message, daily mood (color), journal entry, and recent task activity, generate an empathetic and encouraging reflection.\n"
    + "\n"
    + "Your reflection should:\n"
    + "1.  **Acknowledge the user's input:** Directly address the user's message and the context provided.\n"
    + "2.  **Focus on factual data:** Interpret the mood color as a personal data point without assigning inherent emotional value (e.g., \"Red\" is a chosen color, not \"bad\" unless the journal explicitly states negative feelings).\n"
    + "3.  **Identify and highlight positive aspects:** Look for specific accomplishments, efforts, resilience, or moments of learning/growth from the journal and task data.\n"
    + "4.  **Offer one actionable and gentle suggestion:** Provide a practical, realistic, and encouraging next step related to their well-being, task management, or self-discovery.\n"
    + "5.  **Maintain a supportive and non-judgmental tone:** Avoid overly strong emotional language unless directly quoting the user's journal.\n"
    + "6.  **Be concise:** Keep the reflection to 2-3 sentences.\n"
    + "7.  **Handle inappropriate content:** If the user's message or journal entry contains irrelevant, offensive, harmful, or otherwise inappropriate content, gently steer the conversation back to well-being and personal growth. Do not engage with or validate the inappropriate content. Instead, provide a general, supportive statement focusing on positive habits or self-care, or gently redirect them to a more constructive topic.\n"
    + "\n"
    + "Here is the user's data:\n"

  const ColorLineStart: string := "User's mood today is represented by the color: "
  const ColorLineEnd: string := ". This color is a personal identifier and does not inherently imply a specific emotion like 'good' or 'bad'.\n"
  const NumberLineStart: string := "User's mood today: "
  const JournalLineStart: string := "User's journal entry for today: \""
  const TasksLineStart: string := "User's recent task activity: "
  const MessageLineStart: string := "User's message: \""
  const Cue: string := "\nReflection:"

  /** Cutting `a + b + c` at the two seams gives back its parts. */
  lemma SplitThree(a: string, b: string, c: string)
    ensures a <= a + b + c
    ensures (a + b + c)[|a|..|a| + |b|] == b
    ensures (a + b + c)[|a| + |b|..] == c
  {
  }

  /** Appending three parts one by one appends their concatenation. */
  lemma AppendInTurn(h: string, a: string, b: string, c: string)
    ensures h + a + b + c == h + (a + b + c)
  {
  }

  /** The line quoting the user's message verbatim. */
  function MessageLine(userMessage: string): (r: string)
    ensures |r| == |MessageLineStart| + |userMessage| + 2
    ensures MessageLineStart <= r && r[|MessageLineStart|..|r| - 2] == userMessage
    ensures r[|r| - 2..] == "\"\n"
  {
    SplitThree(MessageLineStart, userMessage, "\"\n");
    MessageLineStart + userMessage + "\"\n"
  }

  /** The mood line: a colour name wins over the number; with neither there is no line. */
  function MoodSection(mood: Option<int>, moodName: Option<string>): (r: string)
    ensures r == [] <==> mood.None? && moodName.None?
    ensures moodName.Some? ==> r == ColorLineStart + moodName.value + ColorLineEnd
    ensures moodName.None? && mood.Some? ==> r == NumberLineStart + Text.IntToString(mood.value) + "/5.\n"
  {
    if moodName.Some? then ColorLineStart + moodName.value + ColorLineEnd
    else if mood.Some? then NumberLineStart + Text.IntToString(mood.value) + "/5.\n"
    else ""
  }

  /** The journal line: present exactly when the journal is not null and not blank; the
      journal is quoted as given, untrimmed. */
  function JournalSection(journal: Option<string>): (r: string)
    ensures r != [] <==> journal.Some? && Text.HasContent(journal.value)
    ensures r != [] ==> r == JournalLineStart + journal.value + "\"\n"
  {
    if journal.Some? then
      Text.TrimIsEmptyIffBlank(journal.value);
      if |Text.Trim(journal.value)| > 0 then JournalLineStart + journal.value + "\"\n" else ""
    else ""
  }

  /** The tasks line: present exactly when the tasks text is not null and not blank. */
  function TasksSection(tasks: Option<string>): (r: string)
    ensures r != [] <==> tasks.Some? && Text.HasContent(tasks.value)
    ensures r != [] ==> r == TasksLineStart + tasks.value + "\n"
  {
    if tasks.Some? then
      Text.TrimIsEmptyIffBlank(tasks.value);
      if |Text.Trim(tasks.value)| > 0 then TasksLineStart + tasks.value + "\n" else ""
    else ""
  }

  /** The part every prompt starts with: the preamble and the message line. */
  function Opening(userMessage: string): (r: string)
    ensures Preamble <= r
    ensures r[|Preamble|..] == MessageLine(userMessage)
  {
    Preamble + MessageLine(userMessage)
  }

  /** `generateAiReflectionPrompt`: the preamble and message line first, the cue last, and
      between them the mood, journal and tasks lines in that order. */
  function GenerateAiReflectionPrompt(data: PromptData): (p: string)
    ensures Opening(data.userMessage) <= p
    ensures |p| >= |Opening(data.userMessage)| + |Cue|
    ensures p[|p| - |Cue|..] == Cue
    ensures p[|Opening(data.userMessage)|..|p| - |Cue|]
         == MoodSection(data.mood, data.moodName) + JournalSection(data.journal) + TasksSection(data.tasks)
  {
    var head := Opening(data.userMessage);
    var withMood := head + MoodSection(data.mood, data.moodName);
    var withJournal := withMood + JournalSection(data.journal);
    var prompt := withJournal + TasksSection(data.tasks);
    var middle := MoodSection(data.mood, data.moodName) + JournalSection(data.journal) + TasksSection(data.tasks);
    AppendInTurn(head, MoodSection(data.mood, data.moodName), JournalSection(data.journal), TasksSection(data.tasks));
    SplitThree(head, middle, Cue);
    prompt + Cue
  }

  /** A blank or missing journal and tasks text leave only the mood line between the
      opening and the cue. */
  lemma BlankSectionsAreOmitted(data: PromptData)
    requires data.journal.None? || !Text.HasContent(data.journal.value)
    requires data.tasks.None? || !Text.HasContent(data.tasks.value)
    ensures var p := GenerateAiReflectionPrompt(data);
      p[|Opening(data.userMessage)|..|p| - |Cue|] == MoodSection(data.mood, data.moodName)
  {
    var mood := MoodSection(data.mood, data.moodName);
    assert JournalSection(data.journal) == [] && TasksSection(data.tasks) == [];
    assert mood + JournalSection(data.journal) + TasksSection(data.tasks) == mood;
  }
}

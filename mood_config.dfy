/**
 * The mood tables (constants/MoodConfig.ts): mood values 1 to 5 each have an emoji and a
 * colour; every other value falls back to no emoji and the no-data colour.
 */
module MoodConfig {

  /** Emoji of moods 1 to 5: red heart (with its emoji presentation selector), purple,
      blue, green and yellow hearts. */
  const MoodEmojis: seq<string> := ["\U{2764}\U{FE0F}", "\U{1F49C}", "\U{1F499}", "\U{1F49A}", "\U{1F49B}"]

  /** Entry 0 is the no-data colour; entries 1 to 5 belong to moods 1 to 5. */
  const MoodColors: seq<string> := ["#ebedf0", "#FF69B4", "#8A2BE2", "#4169E1", "#32CD32", "#FFD700"]

  const NoDataColor: string := "#ebedf0"
  const Transparent: string := "transparent"

  predicate IsMood(moodValue: int) {
    1 <= moodValue <= 5
  }

  /** `getMoodEmoji`: the emoji of a mood, the empty string for anything else. */
  function GetMoodEmoji(moodValue: int): (e: string)
    ensures e != "" <==> IsMood(moodValue)
    ensures IsMood(moodValue) ==> e == MoodEmojis[moodValue - 1]
  {
    if 1 <= moodValue <= 5 then MoodEmojis[moodValue - 1] else ""
  }

  /** `getMoodColor`: the colour of a mood; anything else gets the no-data colour, which
      no mood has. */
  function GetMoodColor(moodValue: int): (c: string)
    ensures c in MoodColors
    ensures c == NoDataColor <==> !IsMood(moodValue)
    ensures IsMood(moodValue) ==> c == MoodColors[moodValue]
  {
    if 1 <= moodValue <= 5 then MoodColors[moodValue] else MoodColors[0]
  }

  /** `getMoodButtonColor`: a selected button shows its mood's colour, an unselected one
      is transparent. */
  function GetMoodButtonColor(moodValue: int, isSelected: bool): (c: string)
    ensures isSelected ==> c == GetMoodColor(moodValue)
    ensures c == Transparent <==> !isSelected
  {
    if isSelected then GetMoodColor(moodValue) else Transparent
  }

  /** Different moods never share an emoji or a colour, so each mapping can be read back. */
  lemma MoodsAreDistinguishable(a: int, b: int)
    requires IsMood(a) && IsMood(b) && a != b
    ensures GetMoodEmoji(a) != GetMoodEmoji(b)
    ensures GetMoodColor(a) != GetMoodColor(b)
  {
  }
}

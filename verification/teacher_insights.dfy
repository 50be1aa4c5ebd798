/** The teacher dashboard's classifiers: the face shown beside a mood score, the colour of
    a student's risk badge, and the colour of a subject's change badge, together with the
    sample tables they are applied to. */
module Insights {
  import opened Text

  /** The four faces, from lowest to highest mood. */
  datatype Face = Pensive | Neutral | Slight | Grinning

  function Emoji(f: Face): string {
    match f
    case Pensive => "😔"
    case Neutral => "😐"
    case Slight => "🙂"
    case Grinning => "😄"
  }

  /** Each face is shown as its own emoji, so the emoji shown identifies the bucket. */
  lemma EmojiIdentifiesFace(f: Face, g: Face)
    ensures Emoji(f) == Emoji(g) <==> f == g
  {
  }

  function Rank(f: Face): nat {
    match f
    case Pensive => 0
    case Neutral => 1
    case Slight => 2
    case Grinning => 3
  }

  /** The face `formatMoodScore` shows for a score (its one-decimal rendering of the number
      is not modelled). */
  function MoodFace(score: real): Face {
    if score <= 2.0 then Pensive
    else if score <= 3.0 then Neutral
    else if score <= 4.0 then Slight
    else Grinning
  }

  /** How many of the bucket boundaries 2, 3 and 4 lie strictly below a score. */
  function BoundariesBelow(score: real): nat {
    (if 2.0 < score then 1 else 0) + (if 3.0 < score then 1 else 0) + (if 4.0 < score then 1 else 0)
  }

  /** A face's rank is the number of boundaries the score exceeds: scores up to 2 get the
      lowest face, (2, 3] the next, (3, 4] the next, and above 4 the highest. */
  lemma MoodFaceCountsBoundaries(score: real)
    ensures Rank(MoodFace(score)) == BoundariesBelow(score)
  {
  }

  /** A higher score never shows a lower face. */
  lemma MoodFaceMonotone(a: real, b: real)
    requires a <= b
    ensures Rank(MoodFace(a)) <= Rank(MoodFace(b))
  {
    MoodFaceCountsBoundaries(a);
    MoodFaceCountsBoundaries(b);
  }

  datatype BadgeColor = Red | Yellow | Green

  /** The risk badge: red for "High", yellow for every other value. */
  function RiskBadge(risk: string): (c: BadgeColor)
    ensures c != Green
    ensures c == Red <==> risk == "High"
  {
    if risk == "High" then Red else Yellow
  }

  /** The change badge: green when the text starts with '+', red otherwise (also for "" and
      "0%"). */
  function ChangeBadge(change: string): (c: BadgeColor)
    ensures c != Yellow
    ensures c == Green <==> |change| > 0 && change[0] == '+'
  {
    if StartsWith(change, "+") then Green else Red
  }

  datatype AtRiskStudent = AtRiskStudent(name: string, mood: real, risk: string)

  const AtRiskStudents: seq<AtRiskStudent> := [
    AtRiskStudent("Alex Johnson", 2.1, "High"),
    AtRiskStudent("Jamie Smith", 2.4, "Medium"),
    AtRiskStudent("Taylor Wilson", 2.3, "High"),
    AtRiskStudent("Jordan Richards", 2.8, "Medium"),
    AtRiskStudent("Casey Brown", 2.2, "High")
  ]

  /** Every sample at-risk student's mood lies in (2, 3], so every row shows the neutral
      face. */
  lemma AtRiskStudentsShowNeutral()
    ensures forall i :: 0 <= i < |AtRiskStudents| ==>
      2.0 < AtRiskStudents[i].mood <= 3.0 && MoodFace(AtRiskStudents[i].mood) == Neutral
  {
  }

  datatype SubjectPerformance = SubjectPerformance(subject: string, avgScore: int, previousAvg: int, change: string)

  const ClassPerformance: seq<SubjectPerformance> := [
    SubjectPerformance("Math", 78, 75, "+3%"),
    SubjectPerformance("Science", 82, 80, "+2%"),
    SubjectPerformance("English", 85, 88, "-3%"),
    SubjectPerformance("History", 79, 76, "+3%"),
    SubjectPerformance("Art", 91, 92, "-1%")
  ]

  /** A signed percentage as the table writes it: "+" before a gain, "-" before a loss. */
  function SignedPercent(d: int): string {
    (if d > 0 then "+" else "") + IntToString(d) + "%"
  }

  /** In the sample table each change text is the difference of the two averages, so the
      badge is green exactly for the subjects whose average rose. */
  lemma ChangeBadgeMatchesScores()
    ensures forall i :: 0 <= i < |ClassPerformance| ==>
      var row := ClassPerformance[i];
      row.change == SignedPercent(row.avgScore - row.previousAvg) &&
      (ChangeBadge(row.change) == Green <==> row.avgScore > row.previousAvg)
  {
    assert SignedPercent(3) == "+3%" && SignedPercent(2) == "+2%";
    assert SignedPercent(-3) == "-3%" && SignedPercent(-1) == "-1%";
  }
}

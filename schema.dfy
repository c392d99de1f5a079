/** The record shapes shared by server and client: the `experiments` and
    `preferences` tables, the question and complexity schemas, and the insert
    shape of preferences, with the column defaults of the preferences table. */
module Schema {
  import opened Common

  /** The difficulty enumeration of a question. */
  datatype Difficulty = Beginner | Intermediate | Advanced

  /** The spelling of each difficulty in JSON. */
  function DifficultyName(d: Difficulty): string {
    match d
    case Beginner => "Beginner"
    case Intermediate => "Intermediate"
    case Advanced => "Advanced"
  }

  /** Validation of a difficulty string by the enumeration schema: exactly the
      three spellings are accepted, each as its own difficulty. */
  function ParseDifficulty(s: string): (r: Option<Difficulty>)
    ensures forall d :: r == Some(d) <==> s == DifficultyName(d)
  {
    if s == "Beginner" then Some(Beginner)
    else if s == "Intermediate" then Some(Intermediate)
    else if s == "Advanced" then Some(Advanced)
    else None
  }

  /** One test question; only the explanation is optional. */
  datatype Question = Question(
    id: int,
    question: string,
    options: seq<string>,
    correctAnswer: int,
    difficulty: Difficulty,
    explanation: Option<string>)

  /** The intended invariant of a question: the correct answer indexes an option. */
  predicate WellFormedQuestion(q: Question) {
    0 <= q.correctAnswer < |q.options|
  }

  datatype TimeComplexity = TimeComplexity(best: string, average: string, worst: string)

  /** Complexity metadata; only the recurrence relation is optional. */
  datatype Complexity = Complexity(
    timeComplexity: TimeComplexity,
    spaceComplexity: string,
    recurrenceRelation: Option<string>,
    analysis: string)

  /** A row of the `experiments` table. Nullable columns are `Option`s; the
      `complexity` JSON column is `None` where the record holds the empty object. */
  datatype Experiment = Experiment(
    id: int,
    title: string,
    description: string,
    discipline: string,
    institute: string,
    estimatedTime: string,
    objectives: seq<string>,
    imageUrl: string,
    rating: Option<int>,
    videoUrl: Option<string>,
    aim: Option<string>,
    overview: Option<string>,
    recap: Option<string>,
    preTest: seq<Question>,
    postTest: seq<Question>,
    complexity: Option<Complexity>)

  /** A row of the `preferences` table. */
  datatype Preferences = Preferences(
    id: int,
    theme: string,
    fontSize: int,
    highContrast: bool,
    starredExperiments: seq<int>)

  /** The insert shape of preferences: `id` is omitted, and every other column
      has a default, so every field may be left out. */
  datatype InsertPreferences = InsertPreferences(
    theme: Option<string>,
    fontSize: Option<int>,
    highContrast: Option<bool>,
    starredExperiments: Option<seq<int>>)

  /** The insert that supplies no field at all. */
  const NoFields := InsertPreferences(None, None, None, None)

  const DefaultTheme := "system"
  const DefaultFontSize := 16
  const DefaultHighContrast := false
  const DefaultStarred: seq<int> := []

  /** The row that inserting `ins` under key `id` creates in the preferences
      table: each supplied field is taken, and each field left out takes its
      column default. */
  function InsertWithDefaults(id: int, ins: InsertPreferences): (r: Preferences)
    ensures r.id == id
    ensures r.theme == (if ins.theme.Some? then ins.theme.value else "system")
    ensures r.fontSize == (if ins.fontSize.Some? then ins.fontSize.value else 16)
    ensures r.highContrast == (ins.highContrast.Some? && ins.highContrast.value)
    ensures r.starredExperiments == (if ins.starredExperiments.Some? then ins.starredExperiments.value else [])
  {
    Preferences(
      id,
      ins.theme.GetOr(DefaultTheme),
      ins.fontSize.GetOr(DefaultFontSize),
      ins.highContrast.GetOr(DefaultHighContrast),
      ins.starredExperiments.GetOr(DefaultStarred))
  }
}

/** The project list screen: the catalog of saved projects, loaded from the catalog file,
    with new projects added at its head. */
module Menu {
  import opened QuestModel
  import NewProjectDialog

  /** The title of the only screen of a new project. */
  const NewProjectText: string := "Новый проект"

  /** What reading the catalog file can produce. */
  datatype CatalogSource = CatalogMissing | CatalogUnreadable | CatalogDecoded(entries: seq<ProjectInfo>)

  /** A newly created project: the file it is written to and its contents. */
  datatype CreatedProject = CreatedProject(file: string, project: Project)

  function DigitChar(d: nat): (c: char)
    requires d < 10
    ensures '0' <= c <= '9'
  {
    (('0' as int) + d) as char
  }

  /** The decimal digits of `n`, as Kotlin prints a non-negative `Long`: at least one
      digit, and no leading zero. */
  function Decimal(n: nat): (r: string)
    ensures |r| >= 1
    ensures forall i :: 0 <= i < |r| ==> '0' <= r[i] <= '9'
    ensures |r| > 1 ==> r[0] != '0'
    ensures n < 10 <==> |r| == 1
  {
    if n < 10 then [DigitChar(n)] else Decimal(n / 10) + [DigitChar(n % 10)]
  }

  /** Different numbers print differently. */
  lemma {:induction false} DecimalInjective(a: nat, b: nat)
    requires Decimal(a) == Decimal(b)
    ensures a == b
  {
    if a >= 10 && b >= 10 {
      var da, db := Decimal(a), Decimal(b);
      assert da[..|da| - 1] == Decimal(a / 10) && db[..|db| - 1] == Decimal(b / 10);
      assert DigitChar(a % 10) == da[|da| - 1] == db[|db| - 1] == DigitChar(b % 10);
      DecimalInjective(a / 10, b / 10);
    }
  }

  /** The number a string of decimal digits stands for, most significant digit first. */
  function DigitsValue(s: string): int
    decreases |s|
  {
    if s == [] then 0 else 10 * DigitsValue(s[..|s| - 1]) + ((s[|s| - 1] as int) - ('0' as int))
  }

  /** The digits Decimal prints stand for `n` itself. */
  lemma {:induction false} DecimalValue(n: nat)
    ensures DigitsValue(Decimal(n)) == n
    decreases n
  {
    if n >= 10 {
      var d := Decimal(n);
      assert d[..|d| - 1] == Decimal(n / 10);
      DecimalValue(n / 10);
    }
  }

  /** The file name of a project created at `millis`: "project_", the time, ".json". */
  function ProjectFileName(millis: nat): (name: string)
    ensures |name| == 13 + |Decimal(millis)|
    ensures name[..8] == "project_" && name[8..|name| - 5] == Decimal(millis)
    ensures name[|name| - 5..] == ".json"
  {
    "project_" + Decimal(millis) + ".json"
  }

  /** Projects created at different times get different files. */
  lemma DistinctTimesDistinctFiles(a: nat, b: nat)
    requires a != b
    ensures ProjectFileName(a) != ProjectFileName(b)
  {
    if ProjectFileName(a) == ProjectFileName(b) {
      DecimalInjective(a, b);
    }
  }

  /** `createProject`: a project of exactly one screen titled "Новый проект", every other
      field default, written to the file named after `millis`. */
  function CreateProject(millis: nat): (r: CreatedProject)
    ensures r.file == ProjectFileName(millis)
    ensures |r.project.screens| == 1
    ensures r.project.screens[0].screenText == NewProjectText && r.project.screens[0].correctAnswer == ""
    ensures forall slot: Slot :: SlotType(r.project.screens[0], slot).None? && SlotContent(r.project.screens[0], slot).None?
  {
    CreatedProject(ProjectFileName(millis), Project([ScreenWithText(NewProjectText)]))
  }

  /** `loadProjectsFromFile`: the decoded catalog, or an empty catalog when the file is
      missing or cannot be read or decoded. */
  function LoadCatalog(source: CatalogSource): (r: seq<ProjectInfo>)
    ensures source.CatalogDecoded? ==> r == source.entries
    ensures !source.CatalogDecoded? ==> r == []
  {
    match source
    case CatalogDecoded(entries) => entries
    case _ => []
  }

  class ProjectList {
    var projects: seq<ProjectInfo>

    constructor (source: CatalogSource)
      ensures projects == LoadCatalog(source)
    {
      projects := LoadCatalog(source);
    }

    /** The result of the new-project dialog arrives: the project is created at
        `createMillis` and its catalog entry, dated `entryMillis` (the clock is read
        twice), goes first in the catalog, which is then written back whole as `saved`.
        A missing title becomes the default name. */
    method AddNewProject(title: Option<string>, createMillis: nat, entryMillis: int)
      returns (created: CreatedProject, entry: ProjectInfo, saved: seq<ProjectInfo>)
      modifies this
      ensures created == CreateProject(createMillis)
      ensures entry.title == title.GetOr(NewProjectDialog.Untitled)
      ensures entry.projectFile == created.file && entry.date == entryMillis
      ensures projects == [entry] + old(projects)
      ensures saved == projects
    {
      var name := title.GetOr(NewProjectDialog.Untitled);
      created := CreateProject(createMillis);
      entry := ProjectInfo(name, created.file, entryMillis);
      projects := [entry] + projects;
      saved := projects;
    }
  }
}

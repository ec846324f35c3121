/** The screen of one project: its preview and the removal of the project from the
    catalog. */
module ProjectMenu {
  import opened QuestModel
  import Menu

  /** `filterNot { it.projectFile == file }`: the catalog without the entries naming
      `file`.  Pruning never makes the catalog longer. */
  function Prune(entries: seq<ProjectInfo>, file: string): (r: seq<ProjectInfo>)
    ensures |r| <= |entries|
  {
    if entries == [] then []
    else (if entries[0].projectFile == file then [] else [entries[0]]) + Prune(entries[1..], file)
  }

  /** Nothing naming `file` survives pruning, every other entry does, and nothing is
      added. */
  lemma {:induction false} PruneMembers(entries: seq<ProjectInfo>, file: string, e: ProjectInfo)
    ensures e in Prune(entries, file) <==> e in entries && e.projectFile != file
    decreases |entries|
  {
    if entries != [] {
      PruneMembers(entries[1..], file, e);
      assert entries == [entries[0]] + entries[1..];
    }
  }

  /** Pruning works piece by piece, so the surviving entries keep their relative order. */
  lemma {:induction false} PruneAppend(a: seq<ProjectInfo>, b: seq<ProjectInfo>, file: string)
    ensures Prune(a + b, file) == Prune(a, file) + Prune(b, file)
    decreases |a|
  {
    if a == [] {
      assert a + b == b;
    } else {
      var head := if a[0].projectFile == file then [] else [a[0]];
      assert (a + b)[0] == a[0] && (a + b)[1..] == a[1..] + b;
      assert Prune(a + b, file) == head + Prune(a[1..] + b, file);
      PruneAppend(a[1..], b, file);
      assert Prune(a, file) == head + Prune(a[1..], file);
    }
  }

  /** A catalog with no entry naming `file` is left exactly as it is. */
  lemma {:induction false} PruneWithoutMatch(entries: seq<ProjectInfo>, file: string)
    requires forall i :: 0 <= i < |entries| ==> entries[i].projectFile != file
    ensures Prune(entries, file) == entries
    decreases |entries|
  {
    if entries != [] {
      PruneWithoutMatch(entries[1..], file);
    }
  }

  /** Pruning twice by the same file is pruning once. */
  lemma PruneIdempotent(entries: seq<ProjectInfo>, file: string)
    ensures Prune(Prune(entries, file), file) == Prune(entries, file)
  {
    var r := Prune(entries, file);
    forall i | 0 <= i < |r| ensures r[i].projectFile != file {
      PruneMembers(entries, file, r[i]);
    }
    PruneWithoutMatch(r, file);
  }

  /** The catalog written back after deleting `file`: the pruned catalog, or an empty
      one when there is no catalog file. */
  function CatalogAfterDelete(catalog: Option<seq<ProjectInfo>>, file: string): (r: seq<ProjectInfo>)
    ensures catalog.None? ==> r == []
    ensures catalog.Some? ==> r == Prune(catalog.value, file)
  {
    match catalog
    case Some(entries) => Prune(entries, file)
    case None => []
  }

  /** After deleting `file`, no entry of the written catalog names it, and every entry
      of the old catalog that named another file is still there. */
  lemma DeletedFileGone(catalog: Option<seq<ProjectInfo>>, file: string, e: ProjectInfo)
    ensures e in CatalogAfterDelete(catalog, file) ==> e.projectFile != file
    ensures catalog.Some? && e in catalog.value && e.projectFile != file ==> e in CatalogAfterDelete(catalog, file)
  {
    if catalog.Some? {
      PruneMembers(catalog.value, file, e);
    }
  }

  /** The preview shows the first screen, so the project must have one. */
  function PreviewScreen(p: Project): (s: QuestScreen)
    requires |p.screens| > 0
    ensures s in p.screens && s == p.screens[0]
  {
    p.screens[0]
  }

  /** Deleting a project just added to the catalog gives back the catalog it was added
      to, when no older entry named the same file. */
  lemma DeleteUndoesAdd(entry: ProjectInfo, catalog: seq<ProjectInfo>)
    requires forall i :: 0 <= i < |catalog| ==> catalog[i].projectFile != entry.projectFile
    ensures CatalogAfterDelete(Some([entry] + catalog), entry.projectFile) == catalog
  {
    PruneAppend([entry], catalog, entry.projectFile);
    PruneWithoutMatch(catalog, entry.projectFile);
    assert Prune([entry], entry.projectFile) == [];
  }

  /** A newly created project can be previewed, and its preview is its only screen,
      titled "Новый проект". */
  lemma NewProjectPreview(millis: nat)
    ensures |Menu.CreateProject(millis).project.screens| > 0
    ensures PreviewScreen(Menu.CreateProject(millis).project).screenText == Menu.NewProjectText
  {
  }
}

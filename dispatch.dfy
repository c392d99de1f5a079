/** The choice of interactive workspace for an experiment page, made from the
    experiment's title alone. */
module WorkspaceDispatch {
  import opened Schema
  import Seed

  /** The workspaces, and the "Experiment workspace not found" message. */
  datatype Workspace = Sorting | DataStructure | Cryptography | Nlp | Graph | NotFound

  /** The `switch` on `experiment.title`, comparing titles exactly. */
  function WorkspaceForTitle(title: string): (w: Workspace)
    ensures w == Sorting <==> title == "Bubble Sort" || title == "Merge Sort"
    ensures w == DataStructure <==> title == "Stacks and Queues" || title == "Linked Lists"
    ensures w == Cryptography <==>
      title == "Breaking the Shift Cipher" || title == "Symmetric Key Encryption Standards (DES)"
    ensures w == Nlp <==> title == "Word Analysis"
    ensures w == Graph <==> title == "Depth First Search"
  {
    match title
    case "Bubble Sort" => Sorting
    case "Merge Sort" => Sorting
    case "Stacks and Queues" => DataStructure
    case "Linked Lists" => DataStructure
    case "Breaking the Shift Cipher" => Cryptography
    case "Symmetric Key Encryption Standards (DES)" => Cryptography
    case "Word Analysis" => Nlp
    case "Depth First Search" => Graph
    case _ => NotFound
  }

  /** `ExperimentWorkspace`: only the title is consulted. */
  function WorkspaceFor(e: Experiment): Workspace {
    WorkspaceForTitle(e.title)
  }

  /** Two experiments with the same title get the same workspace, whatever
      else differs. */
  lemma DependsOnlyOnTitle(a: Experiment, b: Experiment)
    requires a.title == b.title
    ensures WorkspaceFor(a) == WorkspaceFor(b)
  {
  }

  /** Titles are compared exactly: a title differing only in letter case is not
      found. */
  lemma CaseSensitive()
    ensures WorkspaceForTitle("bubble sort") == NotFound
    ensures WorkspaceForTitle("Bubble Sort") == Sorting
  {
  }

  /** Every seeded experiment has a workspace of its own, and the seed pairs
      each one with the expected kind. */
  lemma SeedHasWorkspaces()
    ensures forall k :: 0 <= k < |Seed.Experiments| ==> WorkspaceFor(Seed.Experiments[k]) != NotFound
    ensures WorkspaceFor(Seed.Experiments[0]) == Sorting && WorkspaceFor(Seed.Experiments[1]) == DataStructure
      && WorkspaceFor(Seed.Experiments[2]) == Sorting && WorkspaceFor(Seed.Experiments[3]) == Cryptography
      && WorkspaceFor(Seed.Experiments[4]) == Nlp && WorkspaceFor(Seed.Experiments[5]) == DataStructure
      && WorkspaceFor(Seed.Experiments[6]) == Graph && WorkspaceFor(Seed.Experiments[7]) == Cryptography
  {
    Seed.SeedTitles();
  }
}

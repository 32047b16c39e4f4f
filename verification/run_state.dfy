/** The state a run carries from turn to turn (core/orchestration/state.py): the artifact store,
    its versions and its log. */
module RunStates {
  import opened Common

  /** One write: what the artifact sink stores as a row, unique by path and version. */
  datatype Artifact = Artifact(path: string, version: nat, content: string, step: nat)

  function Writes(log: seq<Artifact>, path: string): nat {
    if log == [] then 0
    else Writes(log[..|log| - 1], path) + if log[|log| - 1].path == path then 1 else 0
  }

  /** What the last write to the path stored. */
  function Latest(log: seq<Artifact>, path: string): Option<string> {
    if log == [] then None
    else if log[|log| - 1].path == path then Some(log[|log| - 1].content)
    else Latest(log[..|log| - 1], path)
  }

  /** Every write is numbered by the writes to the same path before it. */
  ghost predicate Numbered(log: seq<Artifact>) {
    if log == [] then true
    else
      var before, last := log[..|log| - 1], log[|log| - 1];
      Numbered(before) && last.version == Writes(before, last.path) + 1
  }

  function VersionsOf(log: seq<Artifact>, path: string): seq<nat> {
    if log == [] then []
    else VersionsOf(log[..|log| - 1], path) + if log[|log| - 1].path == path then [log[|log| - 1].version] else []
  }

  /** The versions of a path are 1, 2, 3, … in the order of the log. */
  lemma {:induction false} VersionsCountUp(log: seq<Artifact>, path: string)
    requires Numbered(log)
    ensures |VersionsOf(log, path)| == Writes(log, path)
    ensures forall k :: 0 <= k < |VersionsOf(log, path)| ==> VersionsOf(log, path)[k] == k + 1
  {
    if log != [] {
      VersionsCountUp(log[..|log| - 1], path);
    }
  }

  lemma {:induction false} VersionAtMostWrites(log: seq<Artifact>, i: nat)
    requires Numbered(log) && i < |log|
    ensures 1 <= log[i].version <= Writes(log, log[i].path)
  {
    if i < |log| - 1 {
      VersionAtMostWrites(log[..|log| - 1], i);
    }
  }

  /** No two rows share path and version, as the database demands; later writes count higher. */
  lemma {:induction false} RowsDiffer(log: seq<Artifact>, i: nat, j: nat)
    requires Numbered(log) && i < j < |log| && log[i].path == log[j].path
    ensures log[i].version < log[j].version
  {
    var before := log[..|log| - 1];
    if j < |before| {
      RowsDiffer(before, i, j);
    } else {
      VersionAtMostWrites(before, i);
    }
  }

  /** The two dictionaries, as the log determines them. */
  ghost function StoreOf(log: seq<Artifact>): map<string, string> {
    if log == [] then map[] else StoreOf(log[..|log| - 1])[log[|log| - 1].path := log[|log| - 1].content]
  }

  ghost function CountersOf(log: seq<Artifact>): map<string, nat> {
    if log == [] then map[] else CountersOf(log[..|log| - 1])[log[|log| - 1].path := log[|log| - 1].version]
  }

  /** The store holds the last write to every path, and nothing else. */
  lemma {:induction false} StoreHoldsTheLatest(log: seq<Artifact>, path: string)
    ensures path in StoreOf(log) <==> Writes(log, path) > 0
    ensures Latest(log, path) == if path in StoreOf(log) then Some(StoreOf(log)[path]) else None
  {
    if log != [] {
      StoreHoldsTheLatest(log[..|log| - 1], path);
    }
  }

  /** The counter of a path is the number of writes to it. */
  lemma {:induction false} CountersCount(log: seq<Artifact>, path: string)
    requires Numbered(log)
    ensures Writes(log, path) == if path in CountersOf(log) then CountersOf(log)[path] else 0
  {
    if log != [] {
      CountersCount(log[..|log| - 1], path);
    }
  }

  class RunState {
    var artifacts: map<string, string>
    var versions: map<string, nat>
    var log: seq<Artifact>
    var board: seq<string>
    var stepIndex: nat
    /** `notes["tool_loops_exhausted"]`. */
    var exhausted: set<nat>

    ghost predicate Valid()
      reads this
    {
      artifacts == StoreOf(log) && versions == CountersOf(log) && Numbered(log)
    }

    constructor ()
      ensures Valid() && log == [] && stepIndex == 0 && exhausted == {} && board == []
    {
      artifacts, versions, log, board, stepIndex, exhausted := map[], map[], [], [], 0, {};
    }

    /** `record_artifact`. */
    method RecordArtifact(path: string, content: string, step: nat) returns (version: nat)
      requires Valid()
      modifies this`artifacts, this`versions, this`log
      ensures Valid()
      ensures version == Writes(old(log), path) + 1
      ensures log == old(log) + [Artifact(path, version, content, step)]
      ensures artifacts == old(artifacts)[path := content] && versions == old(versions)[path := version]
    {
      version := (if path in versions then versions[path] else 0) + 1;
      CountersCount(log, path);
      versions := versions[path := version];
      artifacts := artifacts[path := content];
      log := log + [Artifact(path, version, content, step)];
      assert log[..|log| - 1] == old(log);
    }
  }
}

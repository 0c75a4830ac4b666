/** Sequential replay of a Delta log, the reference every faster or concurrent form is compared
    with: version after version, the removes of a version winning over its adds
    (section "Action Reconciliation" of the Delta Transaction Log Protocol). */
module DeltaReplay {

  type Path = string

  /** What an action carries besides its path; opaque to replay. */
  datatype FileInfo = FileInfo(stats: string, size: int, time: int, partitionValues: string, tags: string)

  datatype FileAction = Add(path: Path, info: FileInfo) | Remove(path: Path, info: FileInfo)

  type LiveFiles = map<Path, FileInfo>

  function RemovedPaths(actions: seq<FileAction>): set<Path> {
    set a <- actions | a.Remove? :: a.path
  }

  /** The first add of a path in a version is the one that counts. */
  function FirstAdds(actions: seq<FileAction>): LiveFiles {
    if actions == [] then map[]
    else
      var rest := FirstAdds(actions[1..]);
      if actions[0].Add? then rest[actions[0].path := actions[0].info] else rest
  }

  function ApplyVersion(live: LiveFiles, actions: seq<FileAction>): LiveFiles {
    (live + FirstAdds(actions)) - RemovedPaths(actions)
  }

  function Replay(log: seq<seq<FileAction>>): LiveFiles {
    if log == [] then map[]
    else ApplyVersion(Replay(log[..|log| - 1]), log[|log| - 1])
  }
}

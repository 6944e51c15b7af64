/** The configured bases, and the file system they lie in. */
module Configuration {
  import opened Basics
  import opened Journal
  import opened NoteIndex

  datatype GitFields = GitFields(url: string, branch: string, autoSync: bool, intervalMinutes: int, messageTemplate: string)
  datatype Base = Base(name: string, path: Path, git: GitFields)
  datatype Config = Config(bases: seq<Base>, currentBase: string, setupCompleted: bool)

  /** GitConfigured */
  predicate Configured(git: GitFields) {
    (exists c :: c in git.url && !SpaceCode(c as int)) && exists c :: c in git.branch && !SpaceCode(c as int)
  }

  /** A directory as the file system has it now: its canonical path, its identity, its notes if they can be read. */
  datatype Directory = Directory(canonical: Path, identity: nat, notes: Option<seq<NoteNode>>)
  type FileSystem = Path -> Option<Directory>

  function BaseIndex(bases: seq<Base>, name: string): (i: int)
    ensures -1 <= i < |bases| && (i >= 0 ==> bases[i].name == name)
    ensures i < 0 ==> forall b :: b in bases ==> b.name != name
  {
    if bases == [] then -1
    else if bases[0].name == name then 0
    else
      var i := BaseIndex(bases[1..], name);
      if i < 0 then -1 else i + 1
  }
}

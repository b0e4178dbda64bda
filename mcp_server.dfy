/** mcp_server.py: a second, independent copy of the store's listing and move
    tools, used by agent.py. */
module McpServer {
  import opened Strings
  import opened FileOps

  /** list_tasks(folder): the sorted "*.md" names of `folder` other than
      ".gitkeep"; [] when the folder does not exist. */
  function ListTasks(d: Disk, folder: Folder): (r: seq<string>)
    ensures StrictlySorted(r)
    ensures forall n :: n in r <==>
      folder in d.dirs && Path(folder, n) in d.files && EndsWith(n, MdSuffix) && n != GitKeep
    ensures folder !in d.dirs ==> r == []
  {
    if folder !in d.dirs then []
    else
      var names := set p | p in d.files && p.dir == folder && EndsWith(p.name, MdSuffix) && p.name != GitKeep :: p.name;
      assert forall n :: n in names <==> Path(folder, n) in d.files && EndsWith(n, MdSuffix) && n != GitKeep by {
        forall n ensures n in names <==> Path(folder, n) in d.files && EndsWith(n, MdSuffix) && n != GitKeep {
          if Path(folder, n) in d.files && EndsWith(n, MdSuffix) && n != GitKeep {
            assert Path(folder, n).name == n;
          }
        }
      }
      SortedSet(names)
  }

  /** The two copies of list_tasks give the same listing. */
  lemma ListTasksAgrees(d: Disk, folder: Folder)
    ensures ListTasks(d, folder) == FileOps.ListTasks(d, folder)
  {
    if folder in d.dirs {
      var mine := set p | p in d.files && p.dir == folder && EndsWith(p.name, MdSuffix) && p.name != GitKeep :: p.name;
      var theirs := set p | p in d.files && p.dir == folder && Matches(p.name, AnyMd) && p.name != GitKeep :: p.name;
      assert mine == theirs;
    }
  }

  /** move_task(src, dst): False without change when the source is missing;
      otherwise the destination folder is created and shutil.move runs, an
      exception turning into False. */
  method MoveTask(v: Vault, src: Path, dst: Path) returns (ok: bool)
    requires v.Valid()
    modifies v`disk
    ensures v.Valid()
    ensures ok <==> src in old(v.disk.files) && src !in v.disk.faulty && dst !in v.disk.faulty
    ensures Outcome(v.disk, ok) == MoveFileResult(old(v.disk), src, dst)
  {
    if src !in v.disk.files {
      return false;
    }
    v.MakeFolder(dst.dir);
    ok := v.ShutilMoveRaw(src, dst);
  }
}

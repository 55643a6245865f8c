/** Which configuration files are watched for which project (qgis_inotify.c, project_manager.c). */
module Watch {

  import opened Options
  import opened ConfigDiff

  /** A directory as the kernel identifies it: several paths may lead to the same one. */
  type Dir = nat

  /** A configuration file: a name in a directory. */
  datatype File = File(dir: Dir, name: string)

  /** The paths stat() finds a regular file at, with the directory dirname() of the path leads to
      and the name basename() of the path gives. */
  type Disk = map<string, File>

  /** The file to watch for a configured path: none without a path or without a regular file there. */
  function Target(path: Option<string>, disk: Disk): Option<File> {
    if path.Some? && path.value in disk then Some(disk[path.value]) else None
  }

  // The table and the kernel.

  /** The columns of table projects; wd 0 stands for "not watched". */
  datatype Row = Row(path: string, base: string, wd: int)

  const UNWATCHED := Row("", "", 0)

  /** What every project watches, without watch descriptors. */
  type Watching = map<string, Option<File>>

  ghost function Dirs(w: Watching): set<Dir> {
    set n | n in w && w[n].Some? :: w[n].value.dir
  }

  ghost predicate Live(wd: int, kernel: map<Dir, int>, given: map<int, Dir>) {
    wd in given && given[wd] in kernel && kernel[given[wd]] == wd
  }

  /** The kernel hands out positive descriptors, each for one directory and only once. */
  ghost predicate Numbered(kernel: map<Dir, int>, next: int, given: map<int, Dir>) {
    && next > 0
    && (forall wd :: wd in given ==> 0 < wd < next)
    && (forall d :: d in kernel ==> kernel[d] in given && given[kernel[d]] == d)
  }

  ghost predicate Stored(rows: map<string, Row>, kernel: map<Dir, int>, given: map<int, Dir>) {
    forall n :: n in rows ==> rows[n].wd == 0 || Live(rows[n].wd, kernel, given)
  }

  ghost predicate HasUser(rows: map<string, Row>, wd: int) {
    exists n :: n in rows && rows[n].wd == wd
  }

  ghost predicate Used(rows: map<string, Row>, kernel: map<Dir, int>) {
    forall d :: d in kernel ==> HasUser(rows, kernel[d])
  }

  ghost predicate Consistent(rows: map<string, Row>, kernel: map<Dir, int>, next: int, given: map<int, Dir>) {
    Numbered(kernel, next, given) && Stored(rows, kernel, given) && Used(rows, kernel)
  }

  ghost function Meaning(rows: map<string, Row>, given: map<int, Dir>): Watching {
    map n | n in rows :: if rows[n].wd in given then Some(File(given[rows[n].wd], rows[n].base)) else None
  }

  ghost predicate Extends(given: map<int, Dir>, before: map<int, Dir>) {
    forall w :: w in before ==> w in given && given[w] == before[w]
  }

  ghost predicate Keeps(kernel: map<Dir, int>, before: map<Dir, int>) {
    forall d :: d in before ==> d in kernel && kernel[d] == before[d]
  }

  /** The live watches are exactly the positive descriptors in the table, one for each watched directory. */
  lemma LiveWatches(rows: map<string, Row>, kernel: map<Dir, int>, next: int, given: map<int, Dir>)
    requires Consistent(rows, kernel, next, given)
    ensures kernel.Values == set n | n in rows && rows[n].wd > 0 :: rows[n].wd
    ensures kernel.Keys == Dirs(Meaning(rows, given))
  {
    var w := Meaning(rows, given);
    forall d | d in kernel
      ensures d in Dirs(w)
      ensures exists n :: n in rows && rows[n].wd > 0 && rows[n].wd == kernel[d]
    {
      assert HasUser(rows, kernel[d]);
      var n :| n in rows && rows[n].wd == kernel[d];
      assert w[n].Some? && w[n].value.dir == d;
    }
    forall n | n in rows && rows[n].wd > 0
      ensures rows[n].wd in kernel.Values && given[rows[n].wd] in kernel
    {
      assert Live(rows[n].wd, kernel, given);
      assert kernel[given[rows[n].wd]] == rows[n].wd;
    }
  }

  lemma InsertUnwatched(rows: map<string, Row>, kernel: map<Dir, int>, next: int, given: map<int, Dir>, name: string)
    requires Consistent(rows, kernel, next, given) && name !in rows
    ensures Consistent(rows[name := UNWATCHED], kernel, next, given)
    ensures Meaning(rows[name := UNWATCHED], given) == Meaning(rows, given)[name := None]
  {
    forall d | d in kernel
      ensures HasUser(rows[name := UNWATCHED], kernel[d])
    {
      assert HasUser(rows, kernel[d]);
      var n :| n in rows && rows[n].wd == kernel[d];
      assert rows[name := UNWATCHED][n].wd == kernel[d];
    }
  }

  lemma StoreWatch(rows: map<string, Row>, kernel0: map<Dir, int>, given0: map<int, Dir>, next0: int,
                   kernel: map<Dir, int>, given: map<int, Dir>, next: int, name: string, row: Row, d: Dir)
    requires Consistent(rows, kernel0, next0, given0) && Numbered(kernel, next, given)
    requires name in rows && rows[name].wd == 0
    requires kernel == kernel0[d := row.wd] && (d in kernel0 ==> kernel == kernel0) && Extends(given, given0)
    ensures Consistent(rows[name := row], kernel, next, given)
    ensures Meaning(rows[name := row], given) == Meaning(rows, given0)[name := Some(File(d, row.base))]
  {
    var after := rows[name := row];
    forall e | e in kernel
      ensures HasUser(after, kernel[e])
    {
      if e in kernel0 {
        assert HasUser(rows, kernel0[e]);
        var n :| n in rows && rows[n].wd == kernel0[e];
        assert after[n].wd == kernel[e];
      } else {
        assert after[name].wd == kernel[e];
      }
    }
    assert d in kernel && kernel[d] == row.wd;
    forall n | n in after
      ensures after[n].wd == 0 || Live(after[n].wd, kernel, given)
    {
      assert n != name ==> rows[n].wd == 0 || Live(rows[n].wd, kernel0, given0);
    }
  }

  function Users(rows: map<string, Row>, wd: int): set<string> {
    set n | n in rows && rows[n].wd == wd
  }

  function Without(kernel: map<Dir, int>, wd: int): map<Dir, int> {
    map d | d in kernel && kernel[d] != wd :: kernel[d]
  }

  lemma DropWatch(rows: map<string, Row>, kernel: map<Dir, int>, next: int, given: map<int, Dir>, name: string)
    requires Consistent(rows, kernel, next, given) && name in rows && rows[name].wd > 0
    ensures var users := Users(rows, rows[name].wd);
            var rest := if |users| <= 1 then Without(kernel, rows[name].wd) else kernel;
            Consistent(rows[name := UNWATCHED], rest, next, given)
    ensures Meaning(rows[name := UNWATCHED], given) == Meaning(rows, given)[name := None]
    ensures |Users(rows, rows[name].wd)| <= 1 <==> Users(rows, rows[name].wd) == {name}
  {
    var wd := rows[name].wd;
    var users := Users(rows, wd);
    var after := rows[name := UNWATCHED];
    assert name in users;
    var rest := if |users| <= 1 then Without(kernel, wd) else kernel;
    if |users| <= 1 {
      OnlyMember(users, name);
    }
    forall d | d in rest
      ensures HasUser(after, rest[d])
    {
      assert HasUser(rows, kernel[d]);
      var n :| n in rows && rows[n].wd == kernel[d];
      if n != name {
        assert after[n].wd == rest[d];
      } else {
        assert users != {name};
        var other :| other in users && other != name;
        assert after[other].wd == rest[d];
      }
    }
    forall n | n in after
      ensures after[n].wd == 0 || Live(after[n].wd, rest, given)
    {
      if n != name && rows[n].wd != 0 {
        assert Live(rows[n].wd, kernel, given);
        assert rows[n].wd == wd ==> n in users;
      }
    }
  }

  lemma OnlyMember(s: set<string>, x: string)
    requires x in s && |s| <= 1
    ensures s == {x}
  {
    assert |s - {x}| == 0;
  }

  lemma DropRow(rows: map<string, Row>, kernel: map<Dir, int>, next: int, given: map<int, Dir>, name: string)
    requires Consistent(rows, kernel, next, given) && (name in rows ==> rows[name].wd == 0)
    ensures Consistent(rows - {name}, kernel, next, given)
    ensures Meaning(rows - {name}, given) == Meaning(rows, given) - {name}
  {
    forall d | d in kernel
      ensures HasUser(rows - {name}, kernel[d])
    {
      assert HasUser(rows, kernel[d]);
      var n :| n in rows && rows[n].wd == kernel[d];
      assert (rows - {name})[n].wd == kernel[d];
    }
  }

  lemma SettledThenDropped(m: Watching, m': Watching, name: string)
    requires m' == if name in m then m[name := None] else m
    ensures m' - {name} == m - {name}
  {
  }

  lemma SetTwice(m: Watching, name: string, t: Option<File>)
    ensures m[name := None][name := t] == m[name := t]
    ensures (m - {name})[name := t] == m[name := t]
  {
  }

  class Watches {
    var rows: map<string, Row>
    var kernel: map<Dir, int>       // the live watches
    var next: int                   // the kernel does not hand out a descriptor twice
    ghost var given: map<int, Dir>  // every descriptor ever handed out

    ghost predicate Valid()
      reads this
    {
      Consistent(rows, kernel, next, given)
    }

    ghost function Watching(): Watching
      reads this
    {
      Meaning(rows, given)
    }

    constructor ()
      ensures Valid() && Watching() == map[]
    {
      rows, kernel, next, given := map[], map[], 1, map[];
    }

    /** inotify_add_watch: the same directory gives the same descriptor, another one a fresh one. */
    method AddWatch(d: Dir) returns (wd: int)
      requires Numbered(kernel, next, given)
      modifies this`kernel, this`next, this`given
      ensures Numbered(kernel, next, given) && Extends(given, old(given))
      ensures kernel == old(kernel)[d := wd] && (d in old(kernel) ==> kernel == old(kernel))
      ensures d !in old(kernel) ==> wd !in old(given)
    {
      if d in kernel {
        return kernel[d];
      }
      wd := next;
      next := next + 1;
      kernel := kernel[d := wd];
      given := given[wd := d];
    }

    /** qgis_inotify_watch_file: watches the directory and stores the descriptor with the project. */
    method WatchFile(name: string, path: string, disk: Disk) returns (wd: int)
      requires Valid() && name in rows && rows[name].wd == 0
      modifies this
      ensures Valid() && Watching() == old(Watching())[name := Target(Some(path), disk)]
      ensures if path in disk then name in rows && rows[name].wd == wd > 0 else wd == -1
      ensures path in disk ==>
                wd in given && given[wd] == disk[path].dir && name in Selected(rows, wd, disk[path].name)
      ensures Extends(given, old(given)) && Keeps(kernel, old(kernel))
    {
      if path !in disk {
        assert Watching() == old(Watching())[name := None];
        return -1;
      }
      var file := disk[path];
      wd := AddWatch(file.dir);
      assert file.dir in kernel && kernel[file.dir] == wd;
      StoreWatch(rows, old(kernel), old(given), old(next), kernel, given, next, name, Row(path, file.name, wd), file.dir);
      rows := rows[name := Row(path, file.name, wd)];
    }

    /** qgis_inotify_delete_watch: the kernel watch goes with the last project that uses it. */
    method DeleteWatch(name: string)
      requires Valid()
      modifies this`rows, this`kernel
      ensures Valid() && Keeps(old(kernel), kernel)
      ensures Watching() == if name in old(Watching()) then old(Watching())[name := None] else old(Watching())
      ensures name in rows ==> rows[name].wd == 0
      ensures kernel != old(kernel) ==> name in old(rows) && Users(old(rows), old(rows)[name].wd) == {name}
    {
      var wd := if name in rows then rows[name].wd else -1;
      if 0 < wd {
        DropWatch(rows, kernel, next, given, name);
        var count := |Users(rows, wd)|;
        if 1 >= count {
          kernel := Without(kernel, wd);
        }
        rows := rows[name := UNWATCHED];
      } else {
        assert name in rows ==> Watching() == Watching()[name := None];
      }
    }

    /** project_manager_start_project: inserting a project twice ends the program. */
    method Start(name: string, path: Option<string>, disk: Disk) returns (running: bool)
      requires Valid()
      modifies this
      ensures Valid() && Extends(given, old(given)) && Keeps(kernel, old(kernel))
      ensures running <==> name !in old(Watching())
      ensures Watching() == if running then old(Watching())[name := Target(path, disk)] else old(Watching())
    {
      if name in rows {
        return false;
      }
      InsertUnwatched(rows, kernel, next, given, name);
      rows := rows[name := UNWATCHED];
      running := true;
      assert Watching() == old(Watching())[name := None];
      if path.Some? {
        SetTwice(old(Watching()), name, Target(path, disk));
        var _ := WatchFile(name, path.value, disk);
      }
    }

    /** project_manager_shutdown_project, as far as watches go. */
    method Shutdown(name: string)
      requires Valid()
      modifies this`rows, this`kernel
      ensures Valid() && Keeps(old(kernel), kernel)
      ensures Watching() == old(Watching()) - {name}
    {
      DeleteWatch(name);
      DropRow(rows, kernel, next, given, name);
      SettledThenDropped(old(Watching()), Watching(), name);
      rows := rows - {name};
    }

    /** project_manager_restart_project */
    method Restart(name: string, path: Option<string>, disk: Disk)
      requires Valid()
      modifies this
      ensures Valid() && Extends(given, old(given))
      ensures Watching() == old(Watching())[name := Target(path, disk)]
    {
      SetTwice(Watching(), name, Target(path, disk));
      Shutdown(name);
      var running := Start(name, path, disk);
      assert running;
    }

    /** project_manager_shutdown: nothing is watched any more. */
    method ShutdownAll(names: seq<string>)
      requires Valid() && forall n :: n in Watching() ==> n in names
      modifies this`rows, this`kernel
      ensures Valid() && Watching() == map[] && kernel == map[]
    {
      var i := 0;
      while i < |names|
        invariant 0 <= i <= |names| && Valid()
        invariant forall n :: n in Watching() ==> n in names[i..]
      {
        Shutdown(names[i]);
        i := i + 1;
      }
      LiveWatches(rows, kernel, next, given);
    }

    /** The three loops of project_manager_manage_project_changes. */
    method ShutdownEach(names: seq<string>)
      requires Valid()
      modifies this`rows, this`kernel
      ensures Valid() && Watching() == old(Watching()) - Elements(names)
    {
      hide Consistent, Meaning, Elements;
      var i := 0;
      NoElements(Watching(), names);
      while i < |names|
        invariant 0 <= i <= |names| && Valid()
        invariant Watching() == old(Watching()) - Elements(names[..i])
      {
        ElementsStep(names, i);
        DropStep(old(Watching()), Elements(names[..i]), names[i]);
        Shutdown(names[i]);
        i := i + 1;
      }
      assert names[..i] == names;
    }

    method RestartEach(names: seq<string>, paths: Paths, disk: Disk)
      requires Valid() && Configured(names, paths)
      modifies this
      ensures Valid() && Extends(given, old(given))
      ensures Watching() == SetAll(old(Watching()), names, paths, disk)
    {
      hide Consistent, Meaning, SetAll;
      var i := 0;
      ghost var before := Watching();
      SetNone(before, names, paths, disk);
      while i < |names|
        invariant 0 <= i <= |names| && Valid() && Extends(given, old(given))
        invariant Watching() == SetAll(before, names[..i], paths, disk)
      {
        SetAllStep(before, names, i, paths, disk);
        Restart(names[i], paths[names[i]], disk);
        i := i + 1;
      }
      assert names[..i] == names;
    }

    method StartEach(names: seq<string>, paths: Paths, disk: Disk) returns (running: bool)
      requires Valid() && Configured(names, paths)
      modifies this
      ensures Valid() && Extends(given, old(given))
      ensures running <==> AllNew(names, old(Watching()).Keys)
      ensures running ==> Watching() == SetAll(old(Watching()), names, paths, disk)
    {
      hide Consistent, Meaning, SetAll, AllNew;
      var i := 0;
      ghost var before := Watching();
      SetNone(before, names, paths, disk);
      while i < |names|
        invariant 0 <= i <= |names| && Valid() && Extends(given, old(given))
        invariant Watching() == SetAll(before, names[..i], paths, disk)
        invariant AllNew(names[..i], before.Keys)
      {
        StartStep(before, names, i, paths, disk, Watching());
        var started := Start(names[i], paths[names[i]], disk);
        if !started {
          return false;
        }
        i := i + 1;
      }
      assert names[..i] == names;
      running := true;
    }

    /** project_manager_manage_project_changes: shut down, restart, start, in this order. The program
        survives unless a project to start is already there. */
    method ManageChanges(diff: Diff, paths: Paths, disk: Disk) returns (running: bool)
      requires Valid() && Configured(diff.changed, paths) && Configured(diff.added, paths)
      modifies this
      ensures Valid() && Extends(given, old(given))
      ensures running <==> AllNew(diff.added, (old(Watching()).Keys - Elements(diff.deleted)) + Elements(diff.changed))
      ensures running ==> Watching() == Changed(old(Watching()), diff, paths, disk)
    {
      ShutdownEach(diff.deleted);
      RestartEach(diff.changed, paths, disk);
      running := StartEach(diff.added, paths, disk);
    }
  }

  // Lists of projects.

  /** config_get_project_config_path: the configured path of every project of the configuration. */
  type Paths = map<string, Option<string>>

  predicate Configured(names: seq<string>, paths: Paths) {
    forall n :: n in names ==> n in paths
  }

  function Elements(s: seq<string>): set<string> {
    set i | 0 <= i < |s| :: s[i]
  }

  predicate AllNew(names: seq<string>, present: set<string>) {
    NoRepeats(names) && forall i :: 0 <= i < |names| ==> names[i] !in present
  }

  function SetAll(m: Watching, names: seq<string>, paths: Paths, disk: Disk): Watching
    requires Configured(names, paths)
  {
    map n | n in m.Keys + Elements(names) :: if n in names then Target(paths[n], disk) else m[n]
  }

  function Changed(m: Watching, diff: Diff, paths: Paths, disk: Disk): Watching
    requires Configured(diff.changed, paths) && Configured(diff.added, paths)
  {
    SetAll(SetAll(m - Elements(diff.deleted), diff.changed, paths, disk), diff.added, paths, disk)
  }

  lemma ElementsStep(names: seq<string>, i: nat)
    requires i < |names|
    ensures Elements(names[..i + 1]) == Elements(names[..i]) + {names[i]}
  {
    assert forall j :: 0 <= j < i ==> names[..i + 1][j] == names[..i][j];
    assert names[..i + 1][i] == names[i];
    forall n | n in Elements(names[..i])
      ensures n in Elements(names[..i + 1])
    {
      var j :| 0 <= j < i && names[..i][j] == n;
      assert names[..i + 1][j] == n;
    }
  }

  lemma DropStep(m: Watching, s: set<string>, n: string)
    ensures m - s - {n} == m - (s + {n})
  {
  }

  lemma SetNone(m: Watching, names: seq<string>, paths: Paths, disk: Disk)
    ensures SetAll(m, names[..0], paths, disk) == m && AllNew(names[..0], m.Keys)
  {
  }

  lemma NoElements(m: Watching, names: seq<string>)
    ensures m == m - Elements(names[..0])
  {
  }

  lemma SetAllStep(m: Watching, names: seq<string>, i: nat, paths: Paths, disk: Disk)
    requires i < |names| && Configured(names, paths)
    ensures SetAll(m, names[..i + 1], paths, disk) == SetAll(m, names[..i], paths, disk)[names[i] := Target(paths[names[i]], disk)]
    ensures SetAll(m, names[..i], paths, disk).Keys == m.Keys + Elements(names[..i])
  {
    ElementsStep(names, i);
    assert names[..i + 1] == names[..i] + [names[i]];
  }

  lemma AllNewStep(names: seq<string>, i: nat, present: set<string>)
    requires i < |names| && AllNew(names[..i], present)
    ensures AllNew(names[..i + 1], present) <==> names[i] !in present + Elements(names[..i])
    ensures AllNew(names, present) ==> AllNew(names[..i + 1], present)
  {
    ElementsStep(names, i);
    assert forall j :: 0 <= j < i ==> names[..i + 1][j] == names[..i][j];
    assert names[..i + 1][i] == names[i];
    assert names[i] in Elements(names[..i]) ==> exists j :: 0 <= j < i && names[..i][j] == names[i];
  }

  /** Starting the next project fails exactly if the list is not one of new projects. */
  lemma StartStep(m: Watching, names: seq<string>, i: nat, paths: Paths, disk: Disk, now: Watching)
    requires i < |names| && Configured(names, paths) && AllNew(names[..i], m.Keys)
    requires now == SetAll(m, names[..i], paths, disk)
    ensures now[names[i] := Target(paths[names[i]], disk)] == SetAll(m, names[..i + 1], paths, disk)
    ensures names[i] !in now ==> AllNew(names[..i + 1], m.Keys)
    ensures names[i] in now ==> !AllNew(names, m.Keys)
  {
    SetAllStep(m, names, i, paths, disk);
    AllNewStep(names, i, m.Keys);
  }

  // Reloading the configuration.

  /** config_get_project_config_path: the key is looked up in the project's own section only. */
  function PathOf(section: string, es: seq<Entry>): Option<string> {
    if es == [] then None
    else if es[0].key == section + ":config_file" then Some(es[0].value)
    else PathOf(section, es[1..])
  }

  function PathsOf(d: Dictionary): Paths {
    map n | n in Names(d) :: PathOf(n, EntriesOf(d, n))
  }

  /** What a configuration asks to be watched. */
  function Wanted(d: Dictionary, disk: Disk): Watching {
    map n | n in Names(d) :: Target(PathOf(n, EntriesOf(d, n)), disk)
  }

  lemma {:induction false} PathIsEntry(section: string, es: seq<Entry>, v: string)
    requires DistinctKeys(es)
    ensures PathOf(section, es) == Some(v) <==> Has(es, Entry(section + ":config_file", v))
  {
    if es != [] {
      PathIsEntry(section, es[1..], v);
      assert es == [es[0]] + es[1..];
    }
  }

  lemma SamePath(section: string, a: seq<Entry>, b: seq<Entry>)
    requires DistinctKeys(a) && DistinctKeys(b) && SameMeaning(a, b)
    ensures PathOf(section, a) == PathOf(section, b)
  {
    var pa, pb := PathOf(section, a), PathOf(section, b);
    if pa.Some? {
      PathIsEntry(section, a, pa.value);
      PathIsEntry(section, b, pa.value);
    } else if pb.Some? {
      PathIsEntry(section, a, pb.value);
      PathIsEntry(section, b, pb.value);
    }
  }

  /** If the three lists arrived whole, they would lead from what the old configuration wants watched
      to what the new one wants. */
  lemma ReloadIsCorrect(diff: Diff, olds: Dictionary, news: Dictionary, disk: Disk)
    requires WellFormed(olds) && WellFormed(news) && Describes(diff, olds, news) && NoRepeats(diff.added)
    ensures Configured(diff.changed, PathsOf(news)) && Configured(diff.added, PathsOf(news))
    ensures AllNew(diff.added, (Names(olds) - Elements(diff.deleted)) + Elements(diff.changed))
    ensures Changed(Wanted(olds, disk), diff, PathsOf(news), disk) == Wanted(news, disk)
  {
    ElementsAre(diff.deleted);
    ElementsAre(diff.changed);
    ChangedAre(Wanted(olds, disk), diff, PathsOf(news), disk);
    ReachesWanted(diff, diff, olds, news, disk, Changed(Wanted(olds, disk), diff, PathsOf(news), disk));
  }

  /** What the three loops leave, project by project. */
  ghost predicate Leads(m: Watching, diff: Diff, paths: Paths, disk: Disk, after: Watching)
    requires Configured(diff.changed, paths) && Configured(diff.added, paths)
  {
    forall n :: && (n in after <==> (n in m && n !in diff.deleted) || n in diff.changed || n in diff.added)
                && (n in after ==> after[n] == if n in diff.changed || n in diff.added then Target(paths[n], disk) else m[n])
  }

  lemma ChangedAre(m: Watching, diff: Diff, paths: Paths, disk: Disk)
    requires Configured(diff.changed, paths) && Configured(diff.added, paths)
    ensures Leads(m, diff, paths, disk, Changed(m, diff, paths, disk))
  {
    ElementsAre(diff.deleted);
    ElementsAre(diff.changed);
    ElementsAre(diff.added);
  }

  /** Lists that hold every new and every deleted project, and every other whose file differs, lead
      to the goal. */
  lemma ReachesGoal(m: Watching, goal: Watching, part: Diff, paths: Paths, disk: Disk, after: Watching)
    requires forall n :: n in part.deleted <==> n in m && n !in goal
    requires forall n :: n in part.added <==> n in goal && n !in m
    requires forall n :: n in part.changed ==> n in goal
    requires forall n :: n in m && n in goal && n !in part.changed ==> m[n] == goal[n]
    requires forall n :: n in goal ==> n in paths && goal[n] == Target(paths[n], disk)
    requires Leads(m, part, paths, disk, after)
    ensures after == goal
  {
    assert forall n :: n in after <==> n in goal;
  }

  lemma ReachesWanted(diff: Diff, part: Diff, olds: Dictionary, news: Dictionary, disk: Disk, after: Watching)
    requires WellFormed(olds) && WellFormed(news) && Describes(diff, olds, news)
    requires part.added == diff.added && part.deleted == diff.deleted
    requires forall n :: n in part.changed ==> n in diff.changed
    requires forall n :: n in diff.changed && n !in part.changed ==> Wanted(olds, disk)[n] == Wanted(news, disk)[n]
    requires Leads(Wanted(olds, disk), part, PathsOf(news), disk, after)
    ensures after == Wanted(news, disk)
  {
    var m, goal := Wanted(olds, disk), Wanted(news, disk);
    forall n | n in m && n in goal && n !in part.changed
      ensures m[n] == goal[n]
    {
      if n !in diff.changed {
        UnchangedWanted(olds, news, disk, n);
      }
    }
    ReachesGoal(m, goal, part, PathsOf(news), disk, after);
  }

  lemma UnchangedWanted(olds: Dictionary, news: Dictionary, disk: Disk, n: string)
    requires WellFormed(olds) && WellFormed(news) && n in Names(olds) && n in Names(news)
    requires SameMeaning(EntriesOf(olds, n), EntriesOf(news, n))
    ensures Wanted(olds, disk)[n] == Wanted(news, disk)[n]
  {
    EntriesDistinct(olds, n);
    EntriesDistinct(news, n);
    SamePath(n, EntriesOf(olds, n), EntriesOf(news, n));
  }

  lemma ElementsAre(s: seq<string>)
    ensures forall n :: n in Elements(s) <==> n in s
  {
  }

  /** A comparison as config_has_changed leaves it. */
  ghost predicate Compared(diff: Diff, olds: Dictionary, news: Dictionary) {
    && WellFormed(olds) && WellFormed(news) && Describes(diff, olds, news)
    && NoRepeats(diff.added) && NoRepeats(diff.changed) && NoRepeats(diff.deleted)
  }

  /** Nothing that matters is lost on the way through the arrays: at most one new and one deleted
      section, and every changed section but the last names the same file as before. */
  predicate NothingLost(diff: Diff, olds: Dictionary, news: Dictionary, disk: Disk) {
    && |diff.added| <= 1 && |diff.deleted| <= 1
    && forall i :: 0 <= i < |diff.changed| - 1 ==>
         diff.changed[i] in Names(olds) && diff.changed[i] in Names(news)
         && Wanted(olds, disk)[diff.changed[i]] == Wanted(news, disk)[diff.changed[i]]
  }

  /** A section that is not the last of its list does not arrive. */
  lemma NotLast(list: seq<string>, i: nat)
    requires NoRepeats(list) && i < |list| - 1
    ensures list[i] in list && list[i] !in LastOf(list)
  {
  }

  lemma NoneLost(list: seq<string>)
    requires |list| <= 1
    ensures LastOf(list) == list
  {
  }

  lemma ArrivedConfigured(diff: Diff, olds: Dictionary, news: Dictionary)
    requires Compared(diff, olds, news)
    ensures Configured(LastOf(diff.changed), PathsOf(news)) && Configured(LastOf(diff.added), PathsOf(news))
    ensures AllNew(LastOf(diff.added), (Names(olds) - Elements(LastOf(diff.deleted))) + Elements(LastOf(diff.changed)))
  {
    ElementsAre(LastOf(diff.changed));
    if diff.added != [] {
      assert diff.added[|diff.added| - 1] in diff.added;
    }
    if diff.changed != [] {
      assert diff.changed[|diff.changed| - 1] in diff.changed;
    }
  }

  lemma LostSections(diff: Diff, olds: Dictionary, news: Dictionary, disk: Disk, after: Watching)
    requires Compared(diff, olds, news)
    requires Configured(LastOf(diff.changed), PathsOf(news)) && Configured(LastOf(diff.added), PathsOf(news))
    requires after == Changed(Wanted(olds, disk), Arrived(diff), PathsOf(news), disk)
    ensures |diff.added| > 1 ==> diff.added[0] in Names(news) && diff.added[0] !in after
    ensures |diff.deleted| > 1 ==> diff.deleted[0] in after && diff.deleted[0] !in Names(news)
    ensures forall i :: 0 <= i < |diff.changed| - 1 ==>
              var n := diff.changed[i];
              n in Names(olds) && n in Names(news) && n in after && after[n] == Wanted(olds, disk)[n]
  {
    ChangedAre(Wanted(olds, disk), Arrived(diff), PathsOf(news), disk);
    LastIn(diff.added);
    LastIn(diff.changed);
    LastIn(diff.deleted);
    if |diff.added| > 1 {
      NotLast(diff.added, 0);
    }
    if |diff.deleted| > 1 {
      NotLast(diff.deleted, 0);
    }
    forall i | 0 <= i < |diff.changed| - 1
      ensures var n := diff.changed[i];
              n in Names(olds) && n in Names(news) && n in after && after[n] == Wanted(olds, disk)[n]
    {
      NotLast(diff.changed, i);
    }
  }

  lemma LastIn(list: seq<string>)
    ensures forall n :: n in LastOf(list) ==> n in list
  {
  }

  lemma LeftOut(diff: Diff, olds: Dictionary, news: Dictionary, disk: Disk, n: string)
    requires NothingLost(diff, olds, news, disk) && n in diff.changed && n !in LastOf(diff.changed)
    ensures n in Names(olds) && n in Names(news) && Wanted(olds, disk)[n] == Wanted(news, disk)[n]
  {
    var i :| 0 <= i < |diff.changed| && diff.changed[i] == n;
    assert i < |diff.changed| - 1;
  }

  lemma NothingLostSuffices(diff: Diff, olds: Dictionary, news: Dictionary, disk: Disk)
    requires Compared(diff, olds, news) && NothingLost(diff, olds, news, disk)
    requires Configured(LastOf(diff.changed), PathsOf(news)) && Configured(LastOf(diff.added), PathsOf(news))
    ensures Changed(Wanted(olds, disk), Arrived(diff), PathsOf(news), disk) == Wanted(news, disk)
  {
    ChangedAre(Wanted(olds, disk), Arrived(diff), PathsOf(news), disk);
    NoneLost(diff.added);
    NoneLost(diff.deleted);
    LastIn(diff.changed);
    forall n | n in diff.changed && n !in LastOf(diff.changed)
      ensures Wanted(olds, disk)[n] == Wanted(news, disk)[n]
    {
      LeftOut(diff, olds, news, disk, n);
    }
    ReachesWanted(diff, Arrived(diff), olds, news, disk, Changed(Wanted(olds, disk), Arrived(diff), PathsOf(news), disk));
  }

  /** Exactly when a reload as written ends with the files of the new configuration watched. */
  lemma ReloadExactly(diff: Diff, olds: Dictionary, news: Dictionary, disk: Disk)
    requires Compared(diff, olds, news)
    ensures Configured(LastOf(diff.changed), PathsOf(news)) && Configured(LastOf(diff.added), PathsOf(news))
    ensures Changed(Wanted(olds, disk), Arrived(diff), PathsOf(news), disk) == Wanted(news, disk)
       <==> NothingLost(diff, olds, news, disk)
  {
    ArrivedConfigured(diff, olds, news);
    LostSections(diff, olds, news, disk, Changed(Wanted(olds, disk), Arrived(diff), PathsOf(news), disk));
    if NothingLost(diff, olds, news, disk) {
      NothingLostSuffices(diff, olds, news, disk);
    }
  }

  const TWO_NEW: Dictionary := [Section("a", []), Section("b", [])]

  /** A configuration with two new sections: only the second project is started. */
  lemma SecondSectionOnly(disk: Disk)
    ensures var diff := Diff(["a", "b"], [], []);
            && Compared(diff, [], TWO_NEW) && Wanted(TWO_NEW, disk).Keys == {"a", "b"}
            && Configured(["b"], PathsOf(TWO_NEW))
            && Changed(Wanted([], disk), Arrived(diff), PathsOf(TWO_NEW), disk).Keys == {"b"}
  {
    TwoNewSections();
    var diff := Diff(["a", "b"], [], []);
    ChangedAre(Wanted([], disk), Diff(["b"], [], []), PathsOf(TWO_NEW), disk);
    assert Arrived(diff) == Diff(["b"], [], []);
    var after := Changed(Wanted([], disk), Diff(["b"], [], []), PathsOf(TWO_NEW), disk);
    assert forall n :: n in after <==> n == "b";
  }

  lemma TwoNewSections()
    ensures Names(TWO_NEW) == {"a", "b"} && Compared(Diff(["a", "b"], [], []), [], TWO_NEW)
  {
    assert TWO_NEW[0].name == "a" && TWO_NEW[1].name == "b" && Names(TWO_NEW) == {"a", "b"};
    assert ["a", "b"][0] == "a" && ["a", "b"][1] == "b";
  }

  /** SIGHUP: compare the configurations, pass the lists through the arrays, and act on what arrives.
      From whatever is watched, the program survives exactly if the project to start is new; from
      what the old configuration wants it survives, and ends with what the new one wants exactly
      if nothing was lost. */
  method Reload(w: Watches, olds: Dictionary, news: Dictionary, disk: Disk) returns (diff: Diff, running: bool)
    requires w.Valid() && WellFormed(olds) && WellFormed(news)
    modifies w
    ensures w.Valid() && Extends(w.given, old(w.given)) && Compared(diff, olds, news)
    ensures running <==> AllNew(LastOf(diff.added), (old(w.Watching()).Keys - Elements(LastOf(diff.deleted))) + Elements(LastOf(diff.changed)))
    ensures old(w.Watching()) == Wanted(olds, disk) ==>
              running && (w.Watching() == Wanted(news, disk) <==> NothingLost(diff, olds, news, disk))
  {
    diff := HasChanged(olds, news);
    var added := ConvertListToArray(diff.added);
    var changed := ConvertListToArray(diff.changed);
    var deleted := ConvertListToArray(diff.deleted);
    ArrivedConfigured(diff, olds, news);
    ReloadExactly(diff, olds, news, disk);
    running := w.ManageChanges(Diff(ReadArray(added[..]), ReadArray(changed[..]), ReadArray(deleted[..])), PathsOf(news), disk);
  }

  // Events.

  /** db_get_projects_for_watchd_and_config */
  function Selected(rows: map<string, Row>, wd: int, name: string): set<string> {
    set n | n in rows && rows[n].wd == wd && rows[n].base == name
  }

  /** An event carries a descriptor the kernel once gave for a directory. If that watch is still live the
      event selects exactly the projects whose file it names; if it was removed meanwhile, nobody. */
  lemma EventSelects(rows: map<string, Row>, kernel: map<Dir, int>, next: int, given: map<int, Dir>, wd: int, name: string)
    requires Consistent(rows, kernel, next, given) && wd in given
    ensures Live(wd, kernel, given) ==>
              forall n :: n in Selected(rows, wd, name) <==> n in rows && Meaning(rows, given)[n] == Some(File(given[wd], name))
    ensures !Live(wd, kernel, given) ==> Selected(rows, wd, name) == {}
    ensures Live(wd, kernel, given) <==> exists n :: n in rows && rows[n].wd == wd
  {
    if Live(wd, kernel, given) {
      assert HasUser(rows, kernel[given[wd]]);
      forall n | n in rows && Meaning(rows, given)[n] == Some(File(given[wd], name))
        ensures rows[n].wd == wd
      {
        assert Live(rows[n].wd, kernel, given);
      }
    }
  }

  /** From the configuration to the event: while the files of a configuration are watched, an event of a
      live watch selects exactly the projects with an entry "config_file" whose path leads to the file
      the event names. */
  lemma EventSelectsConfigured(rows: map<string, Row>, kernel: map<Dir, int>, next: int, given: map<int, Dir>,
                               wd: int, name: string, d: Dictionary, disk: Disk, n: string)
    requires Consistent(rows, kernel, next, given) && Live(wd, kernel, given) && WellFormed(d)
    requires Meaning(rows, given) == Wanted(d, disk)
    ensures n in Selected(rows, wd, name) <==>
              n in Names(d) && exists path :: path in disk && disk[path] == File(given[wd], name)
                                              && Has(EntriesOf(d, n), Entry(n + ":config_file", path))
  {
    hide Consistent, Wanted, Meaning;
    EventSelects(rows, kernel, next, given, wd, name);
    if n in Names(d) {
      EntriesDistinct(d, n);
      WantedFile(d, disk, n, given[wd], name);
    }
    SameKeys(rows, given, d, disk);
  }

  lemma SameKeys(rows: map<string, Row>, given: map<int, Dir>, d: Dictionary, disk: Disk)
    requires Meaning(rows, given) == Wanted(d, disk)
    ensures forall n :: n in rows <==> n in Names(d)
  {
    assert forall n :: n in rows <==> n in Meaning(rows, given);
    assert forall n :: n in Names(d) <==> n in Wanted(d, disk);
  }

  lemma WantedFile(d: Dictionary, disk: Disk, n: string, dir: Dir, name: string)
    requires WellFormed(d) && n in Names(d) && DistinctKeys(EntriesOf(d, n))
    ensures n in Wanted(d, disk)
    ensures Wanted(d, disk)[n] == Some(File(dir, name)) <==>
              exists path :: path in disk && disk[path] == File(dir, name)
                             && Has(EntriesOf(d, n), Entry(n + ":config_file", path))
  {
    var es := EntriesOf(d, n);
    var found := PathOf(n, es);
    if found.Some? {
      PathIsEntry(n, es, found.value);
    }
    forall path | Has(es, Entry(n + ":config_file", path))
      ensures found == Some(path)
    {
      PathIsEntry(n, es, path);
    }
  }
}

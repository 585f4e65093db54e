/** Publishing a feed by swapping directories: staged, parked, moved in, rolled back and recovered, with
    any operation failing and a crash possible after every one of them. */
module Publisher {
  import opened Bytes

  /** What is published: the addresses listed and the number of files it is written as. */
  datatype Build = Build(id: nat, entries: seq<nat>, size: nat)

  /** A directory holding the first `files` of a build's files. */
  datatype Dir = Dir(build: Build, files: nat)

  datatype Name = Output | Previous | Staging

  /** The directories, and the build the public was last given. */
  datatype State = State(dirs: map<Name, Dir>, committed: Option<Build>)

  predicate Complete(d: Dir) {
    d.files == d.build.size > 0
  }

  /** The feed a reader gets, or gets after recovery: at the public path if it is there, else parked. */
  function Feed(s: State): Option<Dir> {
    if Output in s.dirs then Some(s.dirs[Output])
    else if Previous in s.dirs then Some(s.dirs[Previous])
    else None
  }

  /** What holds at every instant, so after a crash at any of them: the feed is exactly the last build
      committed, complete; before the first there is none. */
  ghost predicate Safe(s: State) {
    if s.committed.None? then Output !in s.dirs && Previous !in s.dirs
    else Feed(s).Some? && Feed(s).value.build == s.committed.value && Complete(Feed(s).value)
  }

  /** A `rename` of directories succeeds only onto nothing or onto an empty directory. */
  predicate CanRename(dirs: map<Name, Dir>, from: Name, to: Name) {
    from in dirs && from != to && (to in dirs ==> dirs[to].files == 0)
  }

  function Renamed(dirs: map<Name, Dir>, from: Name, to: Name): map<Name, Dir>
    requires from in dirs
  {
    (dirs - {from})[to := dirs[from]]
  }

  /** Every instant passed through was safe, and the public only ever went from the build it had to
      `next`. */
  ghost predicate Steady(trail: seq<State>, was: Option<Build>, next: Option<Build>) {
    forall i :: 0 <= i < |trail| ==> Safe(trail[i]) && trail[i].committed in {was, next}
  }

  lemma SteadySnoc(trail: seq<State>, s: State, was: Option<Build>, next: Option<Build>)
    requires Steady(trail, was, next) && Safe(s) && s.committed in {was, next}
    ensures Steady(trail + [s], was, next)
  {
  }

  /** Staging is nobody's feed. */
  lemma StagingIsPrivate(s: State, s': State)
    requires Safe(s) && s'.committed == s.committed
    requires SameBut(Staging, s.dirs, s'.dirs)
    ensures Safe(s')
  {
  }

  ghost predicate SameBut(name: Name, dirs: map<Name, Dir>, dirs': map<Name, Dir>) {
    forall other | other != name ::
      (other in dirs <==> other in dirs') && (other in dirs ==> dirs[other] == dirs'[other])
  }

  lemma OnlyPublic(dirs: map<Name, Dir>)
    requires Output in dirs && Previous !in dirs && Staging !in dirs
    ensures dirs == map[Output := dirs[Output]]
  {
    forall name | name in dirs ensures name == Output {
      match name case Output => case Previous => case Staging =>
    }
  }

  /** The file system, with what goes wrong decided by the number of the operation: whether it fails,
      whether an existence test wrongly says no, and how many files a failing removal takes first. */
  class FileSystem {
    const fails: nat -> bool
    const lies: nat -> bool
    const removes: nat -> nat
    var ops: nat
    var dirs: map<Name, Dir>
    /** The build last moved in. */
    var committed: Option<Build>
    /** Every state since the trail was last cleared: where a crash can leave things. */
    var trail: seq<State>

    constructor (fails: nat -> bool, lies: nat -> bool, removes: nat -> nat, dirs: map<Name, Dir>,
                 committed: Option<Build>)
      ensures View() == State(dirs, committed) && trail == []
    {
      this.fails, this.lies, this.removes, this.dirs, this.committed := fails, lies, removes, dirs, committed;
      ops, trail := 0, [];
    }

    function View(): State
      reads this
    {
      State(dirs, committed)
    }

    /** Nothing goes wrong from operation `a` up to operation `b`. */
    ghost predicate Quiet(a: nat, b: nat) {
      forall k :: a <= k < b ==> !fails(k) && !lies(k)
    }

    /** The last two operations failed. */
    ghost predicate BothFailed()
      reads this`ops
    {
      ops >= 2 && fails(ops - 2) && fails(ops - 1)
    }

    /** What the existence test with this number says. */
    predicate Sees(at: map<Name, Dir>, name: Name, op: nat) {
      name in at && !lies(op)
    }

    // When each operation succeeds and what it leaves, in terms of the directories it finds, the number of its
    // first operation and what goes wrong.

    /** Recovery fails only when the rename back does, or meets a public directory the tests missed. */
    predicate Recovers(at: map<Name, Dir>, op: nat) {
      !Sees(at, Output, op) && Sees(at, Previous, op + 1) ==> !fails(op + 2) && CanRename(at, Previous, Output)
    }

    function Recovered(at: map<Name, Dir>, op: nat): map<Name, Dir> {
      if !Sees(at, Output, op) && Sees(at, Previous, op + 1) && Recovers(at, op) then Renamed(at, Previous, Output)
      else at
    }

    function OpsToRecover(at: map<Name, Dir>, op: nat): nat {
      if Sees(at, Output, op) then 1 else if Sees(at, Previous, op + 1) then 3 else 2
    }

    /** A swap succeeds exactly when recovery does, what is left in the parking place is cleared when it is seen
        and empty when it is missed, and neither rename into place fails; a public directory the test misses
        stops it. Failing to clean up afterwards does not. */
    predicate Swaps(at: map<Name, Dir>, op: nat) {
      Recovers(at, op) && SwapsAfter(Recovered(at, op), op + OpsToRecover(at, op))
    }

    predicate SwapsAfter(at: map<Name, Dir>, op: nat) {
      if Sees(at, Output, op) then Replaces(at, op + 1) else Output !in at && !fails(op + 1)
    }

    predicate Replaces(at: map<Name, Dir>, op: nat) {
      if Sees(at, Previous, op) then !fails(op + 1) && !fails(op + 2) && !fails(op + 3)
      else (Previous in at ==> at[Previous].files == 0) && !fails(op + 1) && !fails(op + 2)
    }

    /** Staging succeeds exactly when what an earlier one left is cleared when it is seen, and neither creating the
        directory nor writing any of the files fails. */
    predicate Stages(at: map<Name, Dir>, op: nat, size: nat) {
      var first := op + OpsToCreate(at, op);
      Creates(at, op) && forall k :: first <= k < first + size ==> !fails(k)
    }

    predicate Creates(at: map<Name, Dir>, op: nat) {
      !fails(op + 1) && (Sees(at, Staging, op) ==> !fails(op + 2))
    }

    function OpsToCreate(at: map<Name, Dir>, op: nat): nat {
      if Sees(at, Staging, op) then 3 else 2
    }

    method Exists(name: Name) returns (there: bool)
      modifies this`ops
      ensures ops == old(ops) + 1
      ensures there == Sees(dirs, name, old(ops))
    {
      there := name in dirs && !lies(ops);
      ops := ops + 1;
    }

    /** Public path to parking place. */
    method Park(ghost was: Option<Build>, ghost next: Option<Build>) returns (ok: bool)
      requires Safe(View()) && Steady(trail, was, next) && committed in {was, next}
      modifies this`ops, this`dirs, this`trail
      ensures Safe(View()) && Steady(trail, was, next)
      ensures ops == old(ops) + 1 && (ok <==> !fails(old(ops)) && CanRename(old(dirs), Output, Previous))
      ensures dirs == if ok then Renamed(old(dirs), Output, Previous) else old(dirs)
    {
      ok := !fails(ops) && CanRename(dirs, Output, Previous);
      ops := ops + 1;
      if ok {
        dirs := Renamed(dirs, Output, Previous);
        SteadySnoc(trail, View(), was, next);
        trail := trail + [View()];
      }
    }

    /** Parking place back to the public path. */
    method Restore(ghost was: Option<Build>, ghost next: Option<Build>) returns (ok: bool)
      requires Safe(View()) && Steady(trail, was, next) && committed in {was, next}
      modifies this`ops, this`dirs, this`trail
      ensures Safe(View()) && Steady(trail, was, next)
      ensures ops == old(ops) + 1 && (ok <==> !fails(old(ops)) && CanRename(old(dirs), Previous, Output))
      ensures dirs == if ok then Renamed(old(dirs), Previous, Output) else old(dirs)
    {
      ok := !fails(ops) && CanRename(dirs, Previous, Output);
      ops := ops + 1;
      if ok {
        dirs := Renamed(dirs, Previous, Output);
        SteadySnoc(trail, View(), was, next);
        trail := trail + [View()];
      }
    }

    /** The staged build to the public path: the moment it is published. */
    method MoveIn(ghost was: Option<Build>, ghost next: Option<Build>) returns (ok: bool)
      requires Safe(View()) && Steady(trail, was, next) && committed in {was, next}
      requires Staging in dirs && Complete(dirs[Staging]) && next == Some(dirs[Staging].build)
      modifies this`ops, this`dirs, this`trail, this`committed
      ensures Safe(View()) && Steady(trail, was, next)
      ensures ops == old(ops) + 1 && (ok <==> !fails(old(ops)) && CanRename(old(dirs), Staging, Output))
      ensures dirs == if ok then Renamed(old(dirs), Staging, Output) else old(dirs)
      ensures committed == if ok then next else old(committed)
    {
      ok := !fails(ops) && CanRename(dirs, Staging, Output);
      ops := ops + 1;
      if ok {
        committed := Some(dirs[Staging].build);
        dirs := Renamed(dirs, Staging, Output);
        SteadySnoc(trail, View(), was, next);
        trail := trail + [View()];
      }
    }

    /** `remove_dir_all`, file by file. Of the parked directory only while the public path is there. */
    method RemoveAll(name: Name, ghost was: Option<Build>, ghost next: Option<Build>) returns (ok: bool)
      requires Safe(View()) && Steady(trail, was, next) && committed in {was, next}
      requires name in dirs && (name == Staging || (name == Previous && Output in dirs))
      modifies this`ops, this`dirs, this`trail
      ensures Safe(View()) && Steady(trail, was, next)
      ensures SameBut(name, old(dirs), dirs)
      ensures ops == old(ops) + 1 && (ok <==> !fails(old(ops)))
      ensures ok ==> dirs == old(dirs) - {name}
    {
      ok := !fails(ops);
      var left := if ok then 0 else dirs[name].files - Min(removes(ops), dirs[name].files);
      ops := ops + 1;
      while dirs[name].files > left
        invariant name in dirs && left <= dirs[name].files
        invariant Safe(View()) && Steady(trail, was, next) && committed == old(committed) && ops == old(ops) + 1
        invariant dirs == old(dirs)[name := dirs[name]]
        decreases dirs[name].files
      {
        dirs := dirs[name := dirs[name].(files := dirs[name].files - 1)];
        SteadySnoc(trail, View(), was, next);
        trail := trail + [View()];
      }
      if ok {
        dirs := dirs - {name};
        assert dirs == old(dirs) - {name};
        SteadySnoc(trail, View(), was, next);
        trail := trail + [View()];
      }
    }

    /** The build's files, one by one, into an empty staging directory. */
    method WriteFiles(build: Build, ghost was: Option<Build>, ghost next: Option<Build>) returns (ok: bool)
      requires Safe(View()) && Steady(trail, was, next) && committed in {was, next}
      requires Staging in dirs && dirs[Staging] == Dir(build, 0)
      modifies this`ops, this`dirs, this`trail
      ensures Safe(View()) && Steady(trail, was, next)
      ensures SameBut(Staging, old(dirs), dirs)
      ensures ok <==> forall k :: old(ops) <= k < old(ops) + build.size ==> !fails(k)
      ensures ok ==> dirs == old(dirs)[Staging := Dir(build, build.size)] && ops == old(ops) + build.size
      ensures !ok ==> ops > old(ops) && fails(ops - 1)
    {
      hide Safe, Steady;
      ghost var start := View();
      ok := true;
      while dirs[Staging].files < build.size
        invariant Staging in dirs && dirs[Staging].build == build && dirs[Staging].files <= build.size
        invariant Safe(View()) && Steady(trail, was, next) && committed == old(committed)
        invariant dirs == old(dirs)[Staging := dirs[Staging]] && ok
        invariant ops == old(ops) + dirs[Staging].files && forall k :: old(ops) <= k < ops ==> !fails(k)
        decreases build.size - dirs[Staging].files
      {
        ok := !fails(ops);
        ops := ops + 1;
        if !ok {
          return;
        }
        dirs := dirs[Staging := Dir(build, dirs[Staging].files + 1)];
        StagingIsPrivate(start, View());
        SteadySnoc(trail, View(), was, next);
        trail := trail + [View()];
      }
    }

    /** `create_staging_dir`: a staging directory without a file of the build, whatever an earlier publish left. */
    method CreateStaging(build: Build, ghost was: Option<Build>, ghost next: Option<Build>) returns (ok: bool)
      requires Safe(View()) && Steady(trail, was, next) && committed in {was, next}
      modifies this`ops, this`dirs, this`trail
      ensures Safe(View()) && Steady(trail, was, next)
      ensures SameBut(Staging, old(dirs), dirs)
      ensures ok <==> Creates(old(dirs), old(ops))
      ensures ok ==> dirs == old(dirs)[Staging := Dir(build, 0)] && ops == old(ops) + OpsToCreate(old(dirs), old(ops))
      ensures ops >= old(ops) && (Quiet(old(ops), ops) ==> ok)
    {
      hide Safe, Steady;
      ghost var start := View();
      var leftover := Exists(Staging);
      if leftover {
        ok := RemoveAll(Staging, was, next);
        if !ok {
          return;
        }
      }
      ok := !fails(ops);
      ops := ops + 1;
      if !ok {
        return;
      }
      dirs := dirs[Staging := Dir(build, 0)];
      StagingIsPrivate(start, View());
      SteadySnoc(trail, View(), was, next);
      trail := trail + [View()];
    }

    /** A clean staging directory, and the build's files written into it. */
    method Stage(build: Build, ghost was: Option<Build>, ghost next: Option<Build>) returns (ok: bool)
      requires Safe(View()) && Steady(trail, was, next) && committed in {was, next} && build.size > 0
      modifies this`ops, this`dirs, this`trail
      ensures Safe(View()) && Steady(trail, was, next)
      ensures SameBut(Staging, old(dirs), dirs)
      ensures ok <==> Stages(old(dirs), old(ops), build.size)
      ensures ok ==> dirs == old(dirs)[Staging := Dir(build, build.size)]
      ensures ok ==> ops == old(ops) + OpsToCreate(old(dirs), old(ops)) + build.size
      ensures ops >= old(ops) && (Quiet(old(ops), ops) ==> ok)
    {
      hide Safe, Steady, Creates, OpsToCreate;
      ok := CreateStaging(build, was, next);
      if !ok {
        return;
      }
      ok := WriteFiles(build, was, next);
    }

    /** `recover_interrupted_publish`: moves the parked build back only when the public path is absent. */
    method Recover(ghost was: Option<Build>, ghost next: Option<Build>) returns (ok: bool, restored: bool)
      requires Safe(View()) && Steady(trail, was, next) && committed in {was, next}
      modifies this`ops, this`dirs, this`trail
      ensures Safe(View()) && Steady(trail, was, next)
      ensures ok <==> Recovers(old(dirs), old(ops))
      ensures dirs == Recovered(old(dirs), old(ops)) && ops == old(ops) + OpsToRecover(old(dirs), old(ops))
      ensures restored <==> ok && Output !in old(dirs) && Output in dirs
      ensures ops >= old(ops) && (Quiet(old(ops), ops) ==> ok)
      ensures Output in old(dirs) ==> Output in dirs
      // Unless an existence test lies or the rename fails, nothing is left parked while the public path is absent.
      ensures committed.Some? && !lies(old(ops)) && !lies(old(ops) + 1) && !fails(old(ops) + 2) ==> ok && Output in dirs
    {
      var there := Exists(Output);
      if there {
        return true, false;
      }
      there := Exists(Previous);
      if !there {
        return true, false;
      }
      ok := Restore(was, next);
      restored := ok;
    }

    /** The two renames: the feed parked, the staged build moved in, and the feed moved back when that fails. */
    method Exchange(ghost was: Option<Build>, ghost next: Option<Build>) returns (ok: bool)
      requires Safe(View()) && Steady(trail, was, next) && committed == was && Output in dirs
      requires Staging in dirs && Complete(dirs[Staging]) && next == Some(dirs[Staging].build)
      modifies this`ops, this`dirs, this`trail, this`committed
      ensures Safe(View()) && Steady(trail, was, next)
      ensures ok <==> !fails(old(ops)) && !fails(old(ops) + 1) && CanRename(old(dirs), Output, Previous)
      ensures ok ==> committed == next && Output in dirs && dirs[Output] == old(dirs)[Staging] && Staging !in dirs
      ensures !ok ==> committed == was && ops > old(ops) && (Quiet(old(ops), ops) ==> Previous in old(dirs))
      ensures !ok ==> Output in dirs || BothFailed()
      ensures ok && !fails(old(ops) + 2) ==> Previous !in dirs
      ensures ok ==> ops == old(ops) + 3
    {
      hide Safe, Steady;
      ok := Park(was, next);
      if !ok {
        return;
      }
      ok := MoveIn(was, next);
      if !ok {
        // The rollback: whether it works or not, the parked build is the committed one.
        var back := Restore(was, next);
        return;
      }
      var cleaned := RemoveAll(Previous, was, next);
    }

    /** A feed that is there is replaced, once what an earlier publish left parked is cleared. */
    method Replace(ghost was: Option<Build>, ghost next: Option<Build>) returns (ok: bool)
      requires Safe(View()) && Steady(trail, was, next) && committed == was && Output in dirs
      requires Staging in dirs && Complete(dirs[Staging]) && next == Some(dirs[Staging].build)
      modifies this`ops, this`dirs, this`trail, this`committed
      ensures Safe(View()) && Steady(trail, was, next)
      ensures ok <==> Replaces(old(dirs), old(ops))
      ensures ok ==> committed == next && Output in dirs && dirs[Output] == old(dirs)[Staging] && Staging !in dirs
      ensures !ok ==> committed == was
      // A failure leaves the feed at the public path, unless moving in and moving back both failed.
      ensures !ok ==> Output in dirs || BothFailed()
      ensures ops >= old(ops) && (Quiet(old(ops), ops) ==> ok && Previous !in dirs)
    {
      hide Safe, Steady, BothFailed;
      var there := Exists(Previous);
      if there {
        ok := RemoveAll(Previous, was, next);
        if !ok {
          return;
        }
      }
      ok := Exchange(was, next);
    }

    /** `swap_into_place`. */
    method Swap(ghost was: Option<Build>, ghost next: Option<Build>) returns (ok: bool)
      requires Safe(View()) && Steady(trail, was, next) && committed == was
      requires Staging in dirs && Complete(dirs[Staging]) && next == Some(dirs[Staging].build)
      modifies this`ops, this`dirs, this`trail, this`committed
      ensures Safe(View()) && Steady(trail, was, next)
      ensures ok <==> Swaps(old(dirs), old(ops))
      ensures ok ==> committed == next && Output in dirs && dirs[Output] == old(dirs)[Staging]
      ensures !ok ==> committed == was
      ensures !ok && Output in old(dirs) ==> Output in dirs || BothFailed()
      ensures Quiet(old(ops), ops) ==> ok && dirs == map[Output := old(dirs)[Staging]]
    {
      hide Steady, Replaces;
      var recovered, _ := Recover(was, next);
      if !recovered {
        return false;
      }
      assert dirs[Staging] == old(dirs)[Staging];
      var there := Exists(Output);
      if there {
        ok := Replace(was, next);
      } else {
        assert Output in dirs ==> dirs[Output].files > 0;
        ok := MoveIn(was, next);
      }
      if Output in dirs && Previous !in dirs && Staging !in dirs {
        OnlyPublic(dirs);
      }
    }

    /** The first entry that should never have been listed stops the build. */
    static method Revalidate(entries: seq<nat>, excluded: nat -> bool) returns (ok: bool)
      ensures ok <==> forall i :: 0 <= i < |entries| ==> !excluded(entries[i])
    {
      for i := 0 to |entries|
        invariant forall j :: 0 <= j < i ==> !excluded(entries[j])
      {
        if excluded(entries[i]) {
          return false;
        }
      }
      return true;
    }

    /** `publish`. Whatever fails, and wherever a crash stops it, the feed is the build that was there
        before or, from the one moment it is moved in, the new one; and never one with an excluded
        entry. */
    method Publish(build: Build, excluded: nat -> bool) returns (ok: bool)
      requires Safe(View()) && build.size > 0
      modifies this
      ensures Safe(View()) && Steady(trail, old(committed), Some(build))
      ensures ok ==> committed == Some(build) && Output in dirs && dirs[Output] == Dir(build, build.size)
      ensures !ok ==> committed == old(committed)
      // It succeeds exactly when recovery, staging and the swap do, of a build without an excluded entry.
      ensures ok <==>
                && Recovers(old(dirs), old(ops))
                && (forall i :: 0 <= i < |build.entries| ==> !excluded(build.entries[i]))
                && var at, op := Recovered(old(dirs), old(ops)), old(ops) + OpsToRecover(old(dirs), old(ops));
                   && Stages(at, op, build.size)
                   && Swaps(at[Staging := Dir(build, build.size)], op + OpsToCreate(at, op) + build.size)
      ensures !ok && Output in old(dirs) ==> Output in dirs || BothFailed()
      // When nothing goes wrong it leaves nothing but the new build, at the public path.
      ensures Quiet(old(ops), ops) && (forall i :: 0 <= i < |build.entries| ==> !excluded(build.entries[i])) ==>
                ok && dirs == map[Output := Dir(build, build.size)]
      ensures committed != old(committed) ==> forall i :: 0 <= i < |build.entries| ==> !excluded(build.entries[i])
      // A build that is rejected still puts a parked feed back.
      ensures committed.Some? && !lies(old(ops)) && !lies(old(ops) + 1) && !fails(old(ops) + 2) ==>
                (exists i :: 0 <= i < |build.entries| && excluded(build.entries[i])) ==> Output in dirs
    {
      hide Safe, Steady, Swaps, Stages, OpsToCreate, OpsToRecover, Recovered;
      ghost var was := committed;
      trail := [];
      var recovered, _ := Recover(was, Some(build));
      if !recovered {
        return false;
      }
      ok := Revalidate(build.entries, excluded);
      if !ok {
        return;
      }
      ok := Stage(build, was, Some(build));
      if !ok {
        return;
      }
      ok := Swap(was, Some(build));
    }

    /** Any number of publishes, each of which may be cut off at any instant: a crash leaves the
        directories as they were at that instant, and the next publish starts from there. The feed is
        complete throughout, and is always one that was moved in. */
    method Life(builds: seq<Build>, excluded: nat -> bool, crashes: nat -> Option<nat>)
      requires Safe(View()) && forall i :: 0 <= i < |builds| ==> builds[i].size > 0
      modifies this
      ensures Safe(View())
      ensures old(committed).Some? ==> committed.Some?
      ensures committed == old(committed)
              || exists i :: 0 <= i < |builds| && committed == Some(builds[i])
    {
      for i := 0 to |builds|
        invariant Safe(View())
        invariant old(committed).Some? ==> committed.Some?
        invariant committed == old(committed) || exists j :: 0 <= j < i && committed == Some(builds[j])
      {
        ghost var before := committed;
        var ok := Publish(builds[i], excluded);
        if crashes(i).Some? && crashes(i).value < |trail| {
          var s := trail[crashes(i).value];
          dirs, committed := s.dirs, s.committed;
        }
        assert committed in {before, Some(builds[i])};
      }
    }
  }
}

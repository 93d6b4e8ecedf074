/** Reconciling an interrupted release activation at startup: a durable record names an intended
    and perhaps a previous release with its configuration; the guard completes whichever of the
    two the current pointer selects. A run can be cut off between any two durable writes. */
module Activation {
  import opened Basics

  type Path = string
  type Content = seq<int>

  datatype RecordFile = Unreadable | Fields(version: int, fields: map<string, string>)

  /** What the guard writes: the record, symbolic links and plain files. */
  datatype Disk = Disk(record: Option<RecordFile>, links: map<Path, Path>, files: map<Path, Content>)

  /** What it only inspects: existing paths with their canonical form, and usable releases. */
  datatype Releases = Releases(canonical: map<Path, Path>, usable: set<Path>)

  datatype Record = Record(link: Path, config: Path, release: Path, source: Path,
                           previousRelease: Option<Path>, previousSource: Option<Path>)

  const REQUIRED := {"current_link", "config_path", "intended_release", "intended_config"}

  // Reading the record.

  function Field(fields: map<string, string>, name: string): string {
    if name in fields then fields[name] else ""
  }

  predicate IsAbsolute(path: Path) { path != [] && path[0] == '/' }

  predicate Optional(fields: map<string, string>, name: string) {
    Field(fields, name) == "" || IsAbsolute(Field(fields, name))
  }

  predicate WellFormed(file: RecordFile) {
    && file.Fields? && file.version == 1
    && (forall name <- REQUIRED :: IsAbsolute(Field(file.fields, name)))
    && Optional(file.fields, "previous_release") && Optional(file.fields, "previous_config")
  }

  function Given(fields: map<string, string>, name: string): Option<Path> {
    if Field(fields, name) == "" then None else Some(Field(fields, name))
  }

  function Meaning(file: RecordFile): Record
    requires WellFormed(file)
  {
    var f := file.fields;
    Record(Field(f, "current_link"), Field(f, "config_path"), Field(f, "intended_release"),
           Field(f, "intended_config"), Given(f, "previous_release"), Given(f, "previous_config"))
  }

  // What a run is to do.

  /** The canonical release the pointer selects; nothing when it is absent or dangling. */
  function Target(env: Releases, disk: Disk, link: Path): Option<Path> {
    if link in disk.links && disk.links[link] in env.canonical then Some(env.canonical[disk.links[link]]) else None
  }

  predicate Usable(env: Releases, disk: Disk, r: Record) {
    && r.release in env.usable
    && (r.previousRelease.Some? ==> r.previousRelease.value in env.usable)
    && (r.previousSource.Some? ==> r.previousSource.value in disk.files)
  }

  /** The configuration recorded for what the pointer selects. */
  function Selected(r: Record, target: Option<Path>): Option<Path> {
    if target == None || target == Some(r.release) then Some(r.source)
    else if r.previousRelease == target then r.previousSource
    else None
  }

  predicate Accepts(env: Releases, disk: Disk) {
    && disk.record.Some? && WellFormed(disk.record.value)
    && var r := Meaning(disk.record.value);
       var source := Selected(r, Target(env, disk, r.link));
       Usable(env, disk, r) && source.Some? && source.value in disk.files
  }

  datatype Write = Install(path: Path, content: Content) | Publish(link: Path, release: Path) | Clear

  function Writes(env: Releases, disk: Disk): seq<Write>
    requires Accepts(env, disk)
  {
    var r := Meaning(disk.record.value);
    var target := Target(env, disk, r.link);
    [Install(r.config, disk.files[Selected(r, target).value])]
      + (if target == None then [Publish(r.link, r.release)] else [])
      + [Clear]
  }

  function Written(disk: Disk, w: Write): Disk {
    match w
    case Install(path, content) => disk.(files := disk.files[path := content])
    case Publish(link, release) => disk.(links := disk.links[link := release])
    case Clear => disk.(record := None)
  }

  function AllWritten(disk: Disk, ws: seq<Write>): Disk
    decreases |ws|
  {
    if ws == [] then disk else Written(AllWritten(disk, ws[..|ws| - 1]), ws[|ws| - 1])
  }

  /** The disk after a run that is cut off once `budget` writes are durable. */
  function Reconciled(env: Releases, disk: Disk, budget: nat): Disk {
    if !Accepts(env, disk) then disk
    else
      var ws := Writes(env, disk);
      AllWritten(disk, if budget < |ws| then ws[..budget] else ws)
  }

  const COMPLETE: nat := 3

  function Rerun(env: Releases, disk: Disk, budgets: seq<nat>): Disk
    decreases |budgets|
  {
    if budgets == [] then disk
    else Reconciled(env, Rerun(env, disk, budgets[..|budgets| - 1]), budgets[|budgets| - 1])
  }

  /** Existing releases resolve, and usable ones exist. */
  ghost predicate Sound(env: Releases) { forall p <- env.usable :: p in env.canonical }

  // What the writes leave behind, cut off at every point.

  lemma ReconciledAt(env: Releases, disk: Disk, budget: nat)
    requires Accepts(env, disk)
    ensures var r := Meaning(disk.record.value);
      var target := Target(env, disk, r.link);
      var content := disk.files[Selected(r, target).value];
      var installed := disk.(files := disk.files[r.config := content]);
      var published := if target == None then installed.(links := disk.links[r.link := r.release]) else installed;
      Reconciled(env, disk, budget) ==
        if budget == 0 then disk
        else if budget == 1 then installed
        else if budget == 2 && target == None then published
        else published.(record := None)
  {
    var ws := Writes(env, disk);
    assert ws[..0] == [] && AllWritten(disk, ws[..0]) == disk;
    assert ws[..1][..0] == ws[..0] && AllWritten(disk, ws[..1]) == Written(disk, ws[0]);
    assert ws[..2][..1] == ws[..1] && AllWritten(disk, ws[..2]) == Written(Written(disk, ws[0]), ws[1]);
    if |ws| == 3 {
      assert ws[..3][..2] == ws[..2] && AllWritten(disk, ws[..3]) == Written(AllWritten(disk, ws[..2]), ws[2]);
    }
    assert ws[..|ws|] == ws;
  }

  /** Rejection and a missing record leave the disk alone, however often it is tried. */
  lemma {:induction false} RejectionIsStable(env: Releases, disk: Disk, budgets: seq<nat>)
    requires !Accepts(env, disk)
    ensures Rerun(env, disk, budgets) == disk
    decreases |budgets|
  {
    if budgets != [] { RejectionIsStable(env, disk, budgets[..|budgets| - 1]); }
  }

  /** The disks reachable from an accepted one when reruns keep choosing the same configuration. */
  ghost predicate Between(env: Releases, disk: Disk, d: Disk)
    requires Accepts(env, disk)
  {
    d in {disk, Reconciled(env, disk, 1), Reconciled(env, disk, 2), Reconciled(env, disk, 3)}
  }

  /** Whether publishing the intended release from an absent pointer can be resumed: the published
      path is canonical, or it leads to the previous release and both configurations agree. */
  predicate Resumable(env: Releases, disk: Disk)
    requires Accepts(env, disk)
  {
    var r := Meaning(disk.record.value);
    Target(env, disk, r.link) == None && r.release in env.canonical ==>
      || env.canonical[r.release] == r.release
      || (&& r.previousRelease == Some(env.canonical[r.release])
          && r.previousSource.Some?
          && (r.previousSource == Some(r.config)
              || (r.previousSource.value in disk.files && disk.files[r.previousSource.value] == disk.files[r.source])))
  }

  lemma ResumesInstalled(env: Releases, disk: Disk, budget: nat)
    requires Accepts(env, disk)
    ensures var d := Reconciled(env, disk, 1);
      Accepts(env, d) && Reconciled(env, d, budget) == Reconciled(env, disk, if budget == 0 then 1 else budget)
  {
    var r := Meaning(disk.record.value);
    var d := Reconciled(env, disk, 1);
    ReconciledAt(env, disk, 1);
    assert d.links == disk.links && d.record == disk.record;
    assert Target(env, d, r.link) == Target(env, disk, r.link);
    assert Accepts(env, d);
    ReconciledAt(env, d, budget);
    ReconciledAt(env, disk, if budget == 0 then 1 else budget);
    assert d.files[r.config := d.files[r.config]] == d.files;
  }

  /** After publication, when it can be resumed, only the record is left to clear. */
  lemma ResumesPublished(env: Releases, disk: Disk, budget: nat)
    requires Sound(env) && Accepts(env, disk) && Target(env, disk, Meaning(disk.record.value).link) == None
    requires Resumable(env, disk)
    ensures Reconciled(env, Reconciled(env, disk, 2), budget) == Reconciled(env, disk, if budget < 2 then 2 else 3)
  {
    var r := Meaning(disk.record.value);
    var d := Reconciled(env, disk, 2);
    ReconciledAt(env, disk, 2);
    ReconciledAt(env, disk, 3);
    assert d.record == disk.record && Target(env, d, r.link) == Some(env.canonical[r.release]);
    assert d.files[r.config := d.files[r.config]] == d.files;
    ReconciledAt(env, d, budget);
  }

  /** Otherwise the rerun rejects what was published, or installs other content over it. */
  lemma GoesElsewhere(env: Releases, disk: Disk)
    requires Sound(env) && Accepts(env, disk) && !Resumable(env, disk)
    ensures Reconciled(env, Reconciled(env, disk, 2), COMPLETE) != Reconciled(env, disk, COMPLETE)
  {
    var r := Meaning(disk.record.value);
    var d := Reconciled(env, disk, 2);
    ReconciledAt(env, disk, 2);
    ReconciledAt(env, disk, 3);
    assert d.record == disk.record && Target(env, d, r.link) == Some(env.canonical[r.release]);
    if Accepts(env, d) {
      ReconciledAt(env, d, COMPLETE);
      var previous := r.previousSource.value;
      assert Selected(r, Target(env, d, r.link)) == Some(previous) && previous != r.config;
      assert Reconciled(env, d, COMPLETE).files[r.config] == disk.files[previous];
      assert Reconciled(env, disk, COMPLETE).files[r.config] == disk.files[r.source];
    } else {
      assert Reconciled(env, d, COMPLETE).record.Some?;
    }
  }

  lemma StaysBetween(env: Releases, disk: Disk, d: Disk, budget: nat)
    requires Sound(env) && Accepts(env, disk) && Resumable(env, disk) && Between(env, disk, d)
    ensures Between(env, disk, Reconciled(env, d, budget))
    ensures budget >= COMPLETE ==> Reconciled(env, d, budget) == Reconciled(env, disk, COMPLETE)
  {
    ReconciledAt(env, disk, budget);
    ReconciledAt(env, disk, 1);
    ReconciledAt(env, disk, 2);
    ReconciledAt(env, disk, 3);
    ResumesInstalled(env, disk, budget);
    if Target(env, disk, Meaning(disk.record.value).link) == None { ResumesPublished(env, disk, budget); }
    hide Accepts, Writes, AllWritten, Resumable;
  }

  lemma {:induction false} RerunsStayBetween(env: Releases, disk: Disk, budgets: seq<nat>)
    requires Sound(env) && Accepts(env, disk) && Resumable(env, disk)
    ensures Between(env, disk, Rerun(env, disk, budgets))
    decreases |budgets|
  {
    if budgets != [] {
      RerunsStayBetween(env, disk, budgets[..|budgets| - 1]);
      hide Accepts, Resumable, Between, Reconciled, Sound;
      StaysBetween(env, disk, Rerun(env, disk, budgets[..|budgets| - 1]), budgets[|budgets| - 1]);
    } else {
      assert Between(env, disk, disk);
    }
  }

  ghost predicate CrashIdempotent(env: Releases, disk: Disk) {
    forall budgets: seq<nat> ::
      Reconciled(env, Rerun(env, disk, budgets), COMPLETE) == Reconciled(env, disk, COMPLETE)
  }

  /** Any number of interrupted runs followed by a complete one ends exactly where one complete run
      does, if and only if an absent pointer can be resumed. A present pointer always can. */
  lemma CrashIdempotentExactlyWhenResumable(env: Releases, disk: Disk)
    requires Sound(env) && Accepts(env, disk)
    ensures CrashIdempotent(env, disk) <==> Resumable(env, disk)
    ensures Target(env, disk, Meaning(disk.record.value).link).Some? ==> Resumable(env, disk)
  {
    if Resumable(env, disk) {
      forall budgets: seq<nat>
        ensures Reconciled(env, Rerun(env, disk, budgets), COMPLETE) == Reconciled(env, disk, COMPLETE)
      {
        hide Accepts, Resumable, Reconciled;
        RerunsStayBetween(env, disk, budgets);
        StaysBetween(env, disk, Rerun(env, disk, budgets), COMPLETE);
      }
    } else {
      GoesElsewhere(env, disk);
      hide Accepts, Resumable, Reconciled;
      assert [2][..0] == [];
      assert Rerun(env, disk, []) == disk;
      assert Rerun(env, disk, [2]) == Reconciled(env, disk, 2);
    }
  }

  /** The pointer and configuration match: a release named by the record with its own content. */
  ghost predicate Coherent(env: Releases, disk: Disk, d: Disk)
    requires Accepts(env, disk)
  {
    var r := Meaning(disk.record.value);
    var target := Target(env, disk, r.link);
    && r.link in d.links && r.config in d.files
    && (if target.None? || target.value == r.release then
          && d.links[r.link] == (if target.None? then r.release else disk.links[r.link])
          && d.files[r.config] == disk.files[r.source]
        else target == r.previousRelease && r.previousSource.Some? && r.previousSource.value in disk.files
             && d.links[r.link] == disk.links[r.link] && d.files[r.config] == disk.files[r.previousSource.value])
  }

  /** A complete run leaves a coherent pair and no record, and touches nothing else. */
  lemma CompleteIsCoherent(env: Releases, disk: Disk)
    requires Accepts(env, disk)
    ensures var d := Reconciled(env, disk, COMPLETE);
      var r := Meaning(disk.record.value);
      && d.record == None && Coherent(env, disk, d)
      && d.links - {r.link} == disk.links - {r.link} && d.files - {r.config} == disk.files - {r.config}
  {
    ReconciledAt(env, disk, COMPLETE);
  }

  // What reruns can leave when the pointer was absent, on every accepted host.

  ghost predicate PublishedWith(disk: Disk, r: Record, d: Disk, content: Content) {
    && d.links == disk.links[r.link := r.release]
    && d.files == disk.files[r.config := content]
    && d.record in {disk.record, None}
  }

  /** The published path leads to the previous release, which a rerun then takes as selected. */
  predicate LeadsToPrevious(env: Releases, disk: Disk, r: Record) {
    && r.release in env.canonical && r.previousRelease == Some(env.canonical[r.release]) != Some(r.release)
    && r.previousSource.Some? && r.previousSource.value in disk.files
  }

  ghost predicate FromAbsent(env: Releases, disk: Disk, d: Disk)
    requires Accepts(env, disk) && Target(env, disk, Meaning(disk.record.value).link) == None
  {
    var r := Meaning(disk.record.value);
    var intended := disk.files[r.source];
    || d == disk
    || d == disk.(files := disk.files[r.config := intended])
    || PublishedWith(disk, r, d, intended)
    || (LeadsToPrevious(env, disk, r) && PublishedWith(disk, r, d, disk.files[r.previousSource.value]))
  }

  lemma UnpublishedSteps(env: Releases, disk: Disk, d: Disk, budget: nat)
    requires Sound(env) && Accepts(env, disk) && Target(env, disk, Meaning(disk.record.value).link) == None
    requires d == disk || d == Reconciled(env, disk, 1)
    ensures FromAbsent(env, disk, Reconciled(env, d, budget))
  {
    ReconciledAt(env, disk, 1);
    ReconciledAt(env, disk, budget);
    if d != disk {
      ResumesInstalled(env, disk, budget);
      ReconciledAt(env, disk, if budget == 0 then 1 else budget);
    }
  }

  lemma PublishedSteps(env: Releases, disk: Disk, d: Disk, content: Content, budget: nat)
    requires Sound(env) && Accepts(env, disk) && Target(env, disk, Meaning(disk.record.value).link) == None
    requires var r := Meaning(disk.record.value);
      && PublishedWith(disk, r, d, content)
      && (content == disk.files[r.source] ||
          (LeadsToPrevious(env, disk, r) && content == disk.files[r.previousSource.value]))
    ensures FromAbsent(env, disk, Reconciled(env, d, budget))
  {
    var r := Meaning(disk.record.value);
    if Accepts(env, d) {
      assert d.record == disk.record && Target(env, d, r.link) == Some(env.canonical[r.release]);
      ReconciledAt(env, d, budget);
      assert disk.files[r.config := content][r.config := disk.files[r.source]] ==
             disk.files[r.config := disk.files[r.source]];
    }
  }

  lemma {:induction false} RerunsFromAbsent(env: Releases, disk: Disk, budgets: seq<nat>)
    requires Sound(env) && Accepts(env, disk) && Target(env, disk, Meaning(disk.record.value).link) == None
    ensures FromAbsent(env, disk, Rerun(env, disk, budgets))
    decreases |budgets|
  {
    if budgets != [] {
      var r := Meaning(disk.record.value);
      var d, budget := Rerun(env, disk, budgets[..|budgets| - 1]), budgets[|budgets| - 1];
      RerunsFromAbsent(env, disk, budgets[..|budgets| - 1]);
      ReconciledAt(env, disk, 1);
      hide Reconciled, Accepts, PublishedWith, Sound;
      if d == disk || d == Reconciled(env, disk, 1) {
        UnpublishedSteps(env, disk, d, budget);
      } else if PublishedWith(disk, r, d, disk.files[r.source]) {
        PublishedSteps(env, disk, d, disk.files[r.source], budget);
      } else {
        PublishedSteps(env, disk, d, disk.files[r.previousSource.value], budget);
      }
    }
  }

  /** However often the guard is cut off, on every accepted host: an absent pointer is published only
      with a matching configuration in place, which is the intended one unless the published path
      leads to the previous release; a present pointer is never changed; and the record goes only
      once pointer and configuration match. */
  lemma NeverMismatched(env: Releases, disk: Disk, budgets: seq<nat>)
    requires Sound(env) && Accepts(env, disk)
    ensures var r := Meaning(disk.record.value);
      var d := Rerun(env, disk, budgets);
      if Target(env, disk, r.link) == None then
        || (d.links == disk.links && d.record == disk.record)
        || PublishedWith(disk, r, d, disk.files[r.source])
        || (LeadsToPrevious(env, disk, r) && PublishedWith(disk, r, d, disk.files[r.previousSource.value]))
      else
        d.links == disk.links && (d.record == disk.record || (d.record == None && Coherent(env, disk, d)))
  {
    if Target(env, disk, Meaning(disk.record.value).link) == None {
      RerunsFromAbsent(env, disk, budgets);
    } else {
      RerunsStayBetween(env, disk, budgets);
      ReconciledAt(env, disk, 1);
      ReconciledAt(env, disk, 2);
      ReconciledAt(env, disk, 3);
    }
  }

  /** A pointer published through a path that is not canonical is not recognised by the rerun. */
  lemma AliasedReleaseIsRejected() returns (env: Releases, disk: Disk)
    ensures Sound(env) && Accepts(env, disk)
    ensures var d := Reconciled(env, disk, 2);
      !Accepts(env, d) && d.record.Some? && Reconciled(env, d, COMPLETE) != Reconciled(env, disk, COMPLETE)
  {
    env := Releases(map["/alias" := "/store"], {"/alias"});
    var fields := map["current_link" := "/current", "config_path" := "/config",
                      "intended_release" := "/alias", "intended_config" := "/new"];
    disk := Disk(Some(Fields(1, fields)), map[], map["/new" := [1]]);
    assert Meaning(disk.record.value) == Record("/current", "/config", "/alias", "/new", None, None);
    ReconciledAt(env, disk, 2);
    ReconciledAt(env, disk, 3);
  }

  datatype Outcome = Finished | Rejected | Interrupted

  class Guard {
    const env: Releases
    var disk: Disk

    /** Reads one path of the record. */
    method AbsolutePath(fields: map<string, string>, name: string, required: bool)
      returns (ok: bool, path: Option<Path>)
      ensures ok <==> IsAbsolute(Field(fields, name)) || (!required && Field(fields, name) == "")
      ensures ok ==> path == Given(fields, name)
    {
      var raw := if name in fields then fields[name] else "";
      if raw == "" { return !required, None; }
      if raw[0] != '/' { return false, None; }
      return true, Some(raw);
    }

    method LoadRecord(file: RecordFile) returns (r: Option<Record>)
      ensures r == if WellFormed(file) then Some(Meaning(file)) else None
      ensures r.Some? ==>
        && file.Fields? && file.version == 1 && REQUIRED <= file.fields.Keys
        && r.value.link == file.fields["current_link"] && r.value.config == file.fields["config_path"]
        && r.value.release == file.fields["intended_release"] && r.value.source == file.fields["intended_config"]
        && r.value.previousRelease == Given(file.fields, "previous_release")
        && r.value.previousSource == Given(file.fields, "previous_config")
    {
      if file.Unreadable? || file.version != 1 { return None; }
      if !(REQUIRED <= file.fields.Keys) {
        assert exists name <- REQUIRED :: Field(file.fields, name) == "";
        return None;
      }
      var f := file.fields;
      var ok, link := AbsolutePath(f, "current_link", true);
      if !ok { return None; }
      var config, release, source, previousRelease, previousSource;
      ok, config := AbsolutePath(f, "config_path", true);
      if !ok { return None; }
      ok, release := AbsolutePath(f, "intended_release", true);
      if !ok { return None; }
      ok, source := AbsolutePath(f, "intended_config", true);
      if !ok { return None; }
      ok, previousRelease := AbsolutePath(f, "previous_release", false);
      if !ok { return None; }
      ok, previousSource := AbsolutePath(f, "previous_config", false);
      if !ok { return None; }
      return Some(Record(link.value, config.value, release.value, source.value, previousRelease, previousSource));
    }

    /** Runs the guard until it finishes, rejects, or is cut off after `budget` durable writes. */
    method Reconcile(budget: nat) returns (outcome: Outcome)
      modifies `disk
      ensures disk == Reconciled(env, old(disk), budget)
      ensures outcome == Rejected <==> old(disk).record.Some? && !Accepts(env, old(disk))
      ensures outcome == Interrupted <==> Accepts(env, old(disk)) && budget < |Writes(env, old(disk))|
    {
      if disk.record.None? { return Finished; }
      var loaded := LoadRecord(disk.record.value);
      if loaded.None? { return Rejected; }
      var r := loaded.value;
      if r.release !in env.usable { return Rejected; }
      if r.previousRelease.Some? && r.previousRelease.value !in env.usable { return Rejected; }
      if r.previousSource.Some? && r.previousSource.value !in disk.files { return Rejected; }

      var target: Option<Path> := None;
      if r.link in disk.links && disk.links[r.link] in env.canonical {
        target := Some(env.canonical[disk.links[r.link]]);
      }
      var release, source := r.release, Some(r.source);
      if target.Some? && target.value != r.release {
        if r.previousRelease.None? || target != r.previousRelease { return Rejected; }
        release, source := r.previousRelease.value, r.previousSource;
      }
      if source.None? || source.value !in disk.files { return Rejected; }

      ghost var start := disk;
      assert Accepts(env, start);
      ReconciledAt(env, start, budget);
      if budget == 0 { return Interrupted; }
      disk := disk.(files := disk.files[r.config := disk.files[source.value]]);
      var written := 1;
      if target.None? {
        if budget == written { return Interrupted; }
        disk := disk.(links := disk.links[r.link := release]);
        written := written + 1;
      }
      if budget == written { return Interrupted; }
      disk := disk.(record := None);
      return Finished;
    }
  }
}

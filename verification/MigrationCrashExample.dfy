/** A small installation on which a killed copy into the state root cannot be
    resumed. */
module MigrationCrashExample {
  import opened Wrappers
  import opened MigrationModel
  import opened MigrationPlan
  import opened MigrationHost
  import opened MigrationProgress
  import opened MigrationResume
  import opened MigrationCrash

  const SRC: Path := [Plain("src")]
  const STATE: Path := [Plain("state")]
  const ROOTS := Roots(SRC, [Plain("env")], STATE, [Plain("cache")], None)
  const OWN := Ownership(0, 1000, 1000)
  const SETUP := Setup(OWN, (content: Content) => true, (main: Content, side: seq<(Name, Content)>) => None)

  const DB: Path := [Plain("src"), Plain("db")]
  const DEAD_LETTER: Path := [Plain("src"), Plain("db"), Plain(DEAD_LETTER_FILENAME)]

  function SourceFile(name: string): Path {
    [Plain("src"), Plain(name)]
  }

  const FILES: set<Path> :=
    {SourceFile(".env"), SourceFile("providers.json"), SourceFile("models_fallback_rules.json"), DEAD_LETTER}
  const DIRECTORIES: set<Path> := {[], SRC, DB}

  /** Environment file, the two mandatory rule files and a dead-letter file, an
      empty state root, and neither environment directory nor cache yet. */
  function Installation(): FileSystem {
    map p | p in FILES + DIRECTORIES + {STATE} ::
      if p == STATE then Dir(1000, 1000, FHS_DIRECTORY_MODE)
      else if p in DIRECTORIES then Dir(0, 0, 0x1ED)
      else File(1, [1], 0, 0, 0x1A4, 1, 0)
  }

  lemma NamesDiffer()
    ensures ".env" != "db" && "providers.json" != "db" && "models_fallback_rules.json" != "db"
    ensures DB !in FILES && SRC !in FILES && STATE !in FILES && [] !in FILES
  {
    assert |".env"| == 4 && |"providers.json"| == 14 && |"models_fallback_rules.json"| == 26 && |"db"| == 2;
  }

  lemma EntriesAre(p: Path)
    ensures p in FILES ==> p in Installation() && Installation()[p].File? && Installation()[p].nlink == 1
    ensures p in DIRECTORIES ==> p in Installation() && Installation()[p].Dir?
    ensures STATE in Installation() && Installation()[STATE] == Dir(1000, 1000, FHS_DIRECTORY_MODE)
    ensures p in Installation() ==> p in FILES || p in DIRECTORIES || p == STATE
  {
    hide FILES;
    NamesDiffer();
    assert STATE !in DIRECTORIES by { assert |"state"| == 5 && |"src"| == 3; }
  }

  lemma InstallationWellFormed()
    ensures WellFormed(Installation())
  {
    forall p | p in Installation() && p != [] ensures Parent(p) in Installation() && Installation()[Parent(p)].Dir? {
      EntriesAre(p);
      assert Parent(DEAD_LETTER) == DB && Parent(DB) == SRC && Parent(SRC) == [] == Parent(STATE);
      assert forall name :: Parent(SourceFile(name)) == SRC;
      assert Parent(p) in DIRECTORIES;
      EntriesAre(Parent(p));
    }
  }

  /** A path of two or more components that is there is a file, or the db
      directory. */
  lemma DeepEntries(p: Path)
    requires |p| > 1 && p in Installation()
    ensures p[0] == Plain("src") && (p != DB ==> Installation()[p].File? && Installation()[p].nlink == 1)
    ensures |p| == 3 ==> p == DEAD_LETTER
  {
    EntriesAre(p);
  }

  lemma RootNamesDiffer()
    ensures Plain("src") != Plain("env") && Plain("src") != Plain("state") && Plain("src") != Plain("cache")
    ensures Plain("env") != Plain("state") && Plain("env") != Plain("cache") && Plain("state") != Plain("cache")
  {
    assert "src"[0] == 's' && "env"[0] == 'e' && "state"[1] == 't' && "cache"[0] == 'c' && "src"[1] == 'r';
  }

  lemma RootsAreFine()
    ensures RootsSafe(Installation(), ROOTS) && RootsDisjoint(ROOTS) && RootsFine(Installation(), ROOTS, OWN)
  {
    hide Installation;
    RootNamesDiffer();
    EntriesAre([]);
    EntriesAre(SRC);
    EntriesAre(ROOTS.env);
    EntriesAre(ROOTS.cache);
    assert SRC[0] != ROOTS.env[0] && STATE[0] != ROOTS.env[0] && SRC[0] != ROOTS.cache[0] && STATE[0] != ROOTS.cache[0];
    assert FHS_DIRECTORY_MODE & GROUP_OTHER_WRITE == 0;
    assert SRC[..0] == [] == STATE[..0];
  }

  lemma SlotLooks(s: Slot)
    requires s in Slots(ROOTS, OWN)
    ensures s.target !in Installation()
    ensures s.source in Installation() ==> Installation()[s.source].File? && Installation()[s.source].nlink == 1
  {
    hide Installation, Slots;
    SlotKinds(ROOTS, OWN, s);
    RootNamesDiffer();
    if s.target in Installation() {
      DeepEntries(s.target);
    }
    if s.source in Installation() {
      SourceIsNotDb(s);
      DeepEntries(s.source);
    }
  }

  lemma SourceIsNotDb(s: Slot)
    requires s in Slots(ROOTS, OWN)
    ensures s.source != DB && |s.source| > 1
  {
    hide Slots;
    SlotKinds(ROOTS, OWN, s);
    NamesDiffer();
    if IsConfigSlot(s, ROOTS, OWN) {
      ConfigNamesAreLong(s.name);
      assert s.source[1] == Plain(s.name);
    } else if s == EnvSlot(ROOTS, OWN) {
      assert s.source[1] == Plain(".env");
    }
  }

  lemma ConfigNamesAreLong(name: string)
    requires name in CONFIG_FILENAMES
    ensures name != "db"
  {
    assert |name| > 2;
  }

  lemma StateNamesAreFine()
    ensures ValidateStateNames(Installation(), ROOTS).Success?
  {
    hide Installation, SidecarNames, IsSidecar, IsTemporary;
    EntriesAre(DB);
    EntriesAre([]);
    RootNamesDiffer();
    var fs := Installation();
    ChildrenMembers(fs, DB);
    ChildrenMembers(fs, STATE);
    forall n | n in Children(fs, DB) ensures n == Plain(DEAD_LETTER_FILENAME) {
      DeepEntries(DB + [n]);
      assert (DB + [n])[2] == n;
    }
    forall n ensures n !in Children(fs, STATE) {
      if n in Children(fs, STATE) {
        DeepEntries(STATE + [n]);
      }
    }
    forall x | x in SidecarNames() ensures x.0 != DEAD_LETTER_FILENAME {
      SidecarIntro(x);
      SidecarNamesApart(x.0);
    }
    assert SourceDb(ROOTS) == DB;
  }

  lemma NothingInTargets(p: Path)
    requires |p| > 1 && (p[0] == Plain("env") || p[0] == Plain("state"))
    ensures p !in Installation()
  {
    hide Installation;
    RootNamesDiffer();
    if p in Installation() {
      DeepEntries(p);
    }
  }

  lemma SidecarsAreFine()
    ensures SidecarsFine(Installation(), ROOTS) && TargetSidecarsValid(Installation(), ROOTS, OWN)
  {
    hide Installation, SidecarNames;
    forall d | d in KNOWN_DB_FILENAMES ensures SnapshotsAt(Installation(), SidecarPaths(SourceDb(ROOTS), d)).Success? {
      var paths := SidecarPaths(SourceDb(ROOTS), d);
      forall i | 0 <= i < |paths| && paths[i] in Installation() ensures Installation()[paths[i]].File? && Installation()[paths[i]].nlink == 1 {
        DeepEntries(paths[i]);
      }
    }
    forall name: string ensures ROOTS.state + [Plain(name)] !in Installation() {
      NothingInTargets(ROOTS.state + [Plain(name)]);
    }
  }

  lemma SettingsAreFine()
    ensures EnvironmentFine(Installation(), ROOTS, SETUP)
    ensures ConfigDirFine(Installation(), ROOTS, OWN) && MandatoryFine(Installation(), ROOTS, OWN)
  {
    hide Installation;
    NothingInTargets(EnvSlot(ROOTS, OWN).target);
    NothingInTargets(ConfigDir(ROOTS));
    EntriesAre(SourceFile(".env"));
    assert EnvSlot(ROOTS, OWN).source == SourceFile(".env");
    forall n | n in MANDATORY_CONFIG_FILENAMES ensures ConfigSlot(ROOTS, OWN, n).source in Installation() {
      EntriesAre(SourceFile(n));
      assert ConfigSlot(ROOTS, OWN, n).source == SourceFile(n);
    }
  }

  lemma InstallationIsPlannable()
    ensures BuildPlan(Installation(), ROOTS, SETUP).Success?
  {
    hide Installation, BuildPlan, Slots, RootsSafe, RootsDisjoint, RootsFine, ValidateStateNames, SidecarsFine, TargetSidecarsValid,
         EnvironmentFine, ConfigDirFine, MandatoryFine;
    RootsAreFine();
    StateNamesAreFine();
    SidecarsAreFine();
    SettingsAreFine();
    forall s | s in Slots(ROOTS, OWN) ensures PlanSlot(Installation(), s, OWN.serviceGid).Success? {
      SlotLooks(s);
    }
    BuildPlanSucceeds(Installation(), ROOTS, SETUP);
  }

  /** The dead-letter file is to be copied into the state root. Killed while
      copying, or between link and unlink, the migration cannot even be planned
      again; killed after the unlink, it can. */
  lemma KilledCopyBlocks(node: Node)
    requires FileMetadata(node, OWN.serviceUid, OWN.serviceGid, RUNTIME_FILE_MODE) && node.content == [1]
    ensures var fs, s, t := Installation(), DeadLetterSlot(ROOTS, OWN), STATE + [Temporary(DEAD_LETTER_FILENAME, 0)];
      && WellFormed(fs) && BuildPlan(fs, ROOTS, SETUP).Success? && CopyUnderWay(fs, ROOTS, SETUP, s, t)
      && BuildPlan(AfterStop(fs, s, t, node, Copying), ROOTS, SETUP).Failure?
      && BuildPlan(AfterStop(fs, s, t, node, LinkedTwice), ROOTS, SETUP).Failure?
      && BuildPlan(AfterStop(fs, s, t, node, Done), ROOTS, SETUP).Success?
  {
    hide Installation, BuildPlan, Slots, WellFormed, FILES;
    var fs, s, t := Installation(), DeadLetterSlot(ROOTS, OWN), STATE + [Temporary(DEAD_LETTER_FILENAME, 0)];
    InstallationIsPlannable();
    InstallationWellFormed();
    CopyIsUnderWay();
    assert fs[s.source].content == [1] by { DeadLetterContent(); }
    StoppedCopyResumable(fs, ROOTS, SETUP, s, t, node, Copying);
    StoppedCopyResumable(fs, ROOTS, SETUP, s, t, node, LinkedTwice);
    StoppedCopyResumable(fs, ROOTS, SETUP, s, t, node, Done);
  }

  lemma DeadLetterContent()
    ensures DeadLetterSlot(ROOTS, OWN).source in Installation()
    ensures Installation()[DeadLetterSlot(ROOTS, OWN).source] == File(1, [1], 0, 0, 0x1A4, 1, 0)
  {
    assert DeadLetterSlot(ROOTS, OWN).source == DEAD_LETTER;
    assert DEAD_LETTER in FILES && DEAD_LETTER != STATE && DEAD_LETTER !in DIRECTORIES;
  }

  lemma CopyIsUnderWay()
    ensures CopyUnderWay(Installation(), ROOTS, SETUP, DeadLetterSlot(ROOTS, OWN), STATE + [Temporary(DEAD_LETTER_FILENAME, 0)])
  {
    hide Installation, Slots;
    var s, t := DeadLetterSlot(ROOTS, OWN), STATE + [Temporary(DEAD_LETTER_FILENAME, 0)];
    SlotKinds(ROOTS, OWN, s);
    DeadLetterContent();
    NothingInTargets(s.target);
    NothingInTargets(t);
    EntriesAre(STATE);
    assert Parent(s.target) == STATE == Parent(t);
  }
}

/**
 * Project-model resolution (server/src/project.rs): which build system a root
 * uses, the parser of the marker-delimited output of the Gradle init script,
 * the merge of configured compiler flags, and the `.kotlin-analyzer.json`
 * manual configuration. The file system is the set `existing` of paths that
 * exist; running Gradle or Maven is represented by its outcome.
 */
module Project {
  import opened Wrappers
  import opened Text
  import opened Json
  import opened Seqs
  import opened Configuration
  import opened Errors

  /** `BuildSystem`; its third case is `None` in the source. */
  datatype BuildSystem = Gradle | Maven | NoBuild

  datatype ProjectModel = ProjectModel(
    projectRoot: string,
    buildSystem: BuildSystem,
    sourceRoots: seq<string>,
    classpath: seq<string>,
    compilerFlags: seq<string>,
    kotlinVersion: Option<string>,
    jdkHome: Option<string>,
    hasCompose: bool,
    generatedSourceRoots: seq<string>)

  /** `ProjectModel::no_build_system`: everything empty. */
  function NoBuildSystemModel(root: string): ProjectModel {
    ProjectModel(root, NoBuild, [], [], [], None, None, false, [])
  }

  // ---------------------------------------------------------------- paths

  predicate IsAbsolute(path: string) {
    |path| > 0 && path[0] == '/'
  }

  /** `Path::join` of a relative path onto a directory (Unix separators). */
  function Join(root: string, path: string): string {
    if root == [] || root[|root| - 1] == '/' then root + path else root + "/" + path
  }

  /** An absolute path as it is, a relative one under `root`. */
  function ResolvePath(root: string, path: string): string {
    if IsAbsolute(path) then path else Join(root, path)
  }

  // ---------------------------------------------------------------- detection

  /** `detect_build_system`: Gradle build files first, then a Maven POM. */
  function DetectBuildSystem(root: string, existing: set<string>): BuildSystem {
    if Join(root, "build.gradle.kts") in existing || Join(root, "build.gradle") in existing then Gradle
    else if Join(root, "pom.xml") in existing then Maven
    else NoBuild
  }

  /** Each outcome of detection, with the condition that leads to it. */
  lemma DetectionPriority(root: string, existing: set<string>)
    ensures var gradle := Join(root, "build.gradle.kts") in existing || Join(root, "build.gradle") in existing;
      && (DetectBuildSystem(root, existing) == Gradle <==> gradle)
      && (DetectBuildSystem(root, existing) == Maven <==> !gradle && Join(root, "pom.xml") in existing)
      && (DetectBuildSystem(root, existing) == NoBuild <==> !gradle && Join(root, "pom.xml") !in existing)
  {
  }

  function KeepExisting(existing: set<string>): string -> Option<string> {
    (path: string) => if path in existing then Some(path) else None
  }

  /** `find_kotlin_source_roots`. */
  function FindKotlinSourceRoots(root: string, existing: set<string>): (r: seq<string>)
    ensures forall i :: 0 <= i < |r| ==> r[i] in existing
  {
    var candidates := [Join(root, "src/main/kotlin"), Join(root, "src/main/java"), Join(root, "src")];
    var r := FilterMap(candidates, KeepExisting(existing));
    FilterMapFrom(candidates, KeepExisting(existing));
    r
  }

  /** The existing candidates, in the order Kotlin sources, Java sources, `src`. */
  lemma SourceRootCandidates(root: string, existing: set<string>)
    ensures var kotlin := Join(root, "src/main/kotlin"); var java := Join(root, "src/main/java"); var src := Join(root, "src");
      FindKotlinSourceRoots(root, existing) ==
        (if kotlin in existing then [kotlin] else []) + (if java in existing then [java] else []) + (if src in existing then [src] else [])
  {
    var candidates := [Join(root, "src/main/kotlin"), Join(root, "src/main/java"), Join(root, "src")];
    assert candidates == [candidates[0]] + [candidates[1]] + [candidates[2]];
    FilterMapAppend([candidates[0]] + [candidates[1]], [candidates[2]], KeepExisting(existing));
    FilterMapAppend([candidates[0]], [candidates[1]], KeepExisting(existing));
    assert [candidates[0]][1..] == [] && [candidates[1]][1..] == [] && [candidates[2]][1..] == [];
  }

  // ---------------------------------------------------------------- compiler flags

  /** Appending each of `extra` that is not yet present, in order. */
  function MergedFlags(flags: seq<string>, extra: seq<string>): seq<string>
    decreases |extra|
  {
    if extra == [] then flags
    else MergedFlags(if extra[0] in flags then flags else flags + [extra[0]], extra[1..])
  }

  /** The merge loop shared by `parse_gradle_output` and `resolve_manual_config`. */
  method MergeFlags(flags: seq<string>, extra: seq<string>) returns (merged: seq<string>)
    ensures merged == MergedFlags(flags, extra)
  {
    merged := flags;
    for i := 0 to |extra|
      invariant MergedFlags(merged, extra[i..]) == MergedFlags(flags, extra)
    {
      assert extra[i..][0] == extra[i] && extra[i..][1..] == extra[i + 1..];
      if extra[i] !in merged {
        merged := merged + [extra[i]];
      }
    }
    assert extra[|extra|..] == [];
  }

  /** The flags already present keep their positions. */
  lemma {:induction false} MergeKeepsFlags(flags: seq<string>, extra: seq<string>)
    ensures |flags| <= |MergedFlags(flags, extra)| && MergedFlags(flags, extra)[..|flags|] == flags
    decreases |extra|
  {
    if extra != [] {
      var next := if extra[0] in flags then flags else flags + [extra[0]];
      MergeKeepsFlags(next, extra[1..]);
      assert next[..|flags|] == flags;
      assert MergedFlags(flags, extra)[..|flags|] == MergedFlags(flags, extra)[..|next|][..|flags|];
    }
  }

  /** The merge holds every flag of either list and nothing else. */
  lemma {:induction false} MergeMembers(flags: seq<string>, extra: seq<string>, flag: string)
    ensures flag in MergedFlags(flags, extra) <==> flag in flags || flag in extra
    decreases |extra|
  {
    if extra != [] {
      var next := if extra[0] in flags then flags else flags + [extra[0]];
      MergeMembers(next, extra[1..], flag);
      assert extra == [extra[0]] + extra[1..];
    }
  }

  predicate NoDuplicates(xs: seq<string>) {
    forall i, j :: 0 <= i < j < |xs| ==> xs[i] != xs[j]
  }

  /** Merging into a list without duplicates gives a list without duplicates. */
  lemma {:induction false} MergeNoDuplicates(flags: seq<string>, extra: seq<string>)
    requires NoDuplicates(flags)
    ensures NoDuplicates(MergedFlags(flags, extra))
    decreases |extra|
  {
    if extra != [] {
      var next := if extra[0] in flags then flags else flags + [extra[0]];
      assert NoDuplicates(next);
      MergeNoDuplicates(next, extra[1..]);
    }
  }

  // ---------------------------------------------------------------- Gradle output

  const SECTION_START: string := "---KOTLIN-ANALYZER-START---"
  const SECTION_END: string := "---KOTLIN-ANALYZER-END---"
  const SOURCE_ROOT: string := "SOURCE_ROOT="
  const CLASSPATH: string := "CLASSPATH="
  const COMPILER_FLAG: string := "COMPILER_FLAG="
  const KOTLIN_VERSION: string := "KOTLIN_VERSION="
  const HAS_COMPOSE: string := "HAS_COMPOSE=true"
  const GENERATED_SOURCE_ROOT: string := "GENERATED_SOURCE_ROOT="

  /**
   * The trimmed lines `parse_gradle_output` interprets: those after a start
   * marker, up to the first end marker; marker lines themselves are not among them.
   */
  function SectionLines(lines: seq<string>, inSection: bool): seq<string> {
    if lines == [] then []
    else
      var line := Trim(lines[0], RUST_WHITESPACE);
      if line == SECTION_START then SectionLines(lines[1..], true)
      else if line == SECTION_END then []
      else if !inSection then SectionLines(lines[1..], false)
      else [line] + SectionLines(lines[1..], true)
  }

  /** The value of a `KEY=value` line with the given `KEY=` prefix. */
  function Field(prefix: string): string -> Option<string> {
    (line: string) => if HasPrefix(line, prefix) then Some(line[|prefix|..]) else None
  }

  function LastOf(values: seq<string>): Option<string> {
    if values == [] then None else Some(values[|values| - 1])
  }

  /** What the section lines say: one list per key, the Kotlin version and the Compose flag. */
  datatype GradleFacts = GradleFacts(
    sourceRoots: seq<string>,
    classpath: seq<string>,
    flags: seq<string>,
    kotlinVersion: Option<string>,
    hasCompose: bool,
    generatedSourceRoots: seq<string>)

  /**
   * Each list holds the values of its own key in input order, the last Kotlin
   * version wins, and Compose is flagged only by the exact line.
   */
  function FactsOf(section: seq<string>): GradleFacts {
    GradleFacts(
      FilterMap(section, Field(SOURCE_ROOT)),
      FilterMap(section, Field(CLASSPATH)),
      FilterMap(section, Field(COMPILER_FLAG)),
      LastOf(FilterMap(section, Field(KOTLIN_VERSION))),
      HAS_COMPOSE in section,
      FilterMap(section, Field(GENERATED_SOURCE_ROOT)))
  }

  /** The model `parse_gradle_output` builds: the section's facts, with the configured flags merged after Gradle's. */
  function GradleModel(output: string, root: string, config: Config): ProjectModel {
    var facts := FactsOf(SectionLines(Lines(output), false));
    ProjectModel(
      root, Gradle, facts.sourceRoots, facts.classpath, MergedFlags(facts.flags, config.compilerFlags),
      facts.kotlinVersion, config.javaHome, facts.hasCompose, facts.generatedSourceRoots)
  }

  /** One more section line adds its value to the list of its key only. */
  lemma FieldStep(section: seq<string>, line: string, prefix: string)
    ensures FilterMap(section + [line], Field(prefix)) ==
      FilterMap(section, Field(prefix)) + (if HasPrefix(line, prefix) then [line[|prefix|..]] else [])
  {
    FilterMapAppend(section, [line], Field(prefix));
    assert [line][1..] == [];
  }

  lemma PrefixAt(line: string, prefix: string, k: nat)
    requires HasPrefix(line, prefix) && k < |prefix|
    ensures line[k] == prefix[k]
  {
    assert line[..|prefix|][k] == line[k];
  }

  /** The keys exclude one another, so the order of the tests does not matter. */
  lemma KeysExclusive(line: string)
    ensures HasPrefix(line, SOURCE_ROOT) ==>
      !HasPrefix(line, CLASSPATH) && !HasPrefix(line, COMPILER_FLAG) && !HasPrefix(line, KOTLIN_VERSION) &&
      line != HAS_COMPOSE && !HasPrefix(line, GENERATED_SOURCE_ROOT)
    ensures HasPrefix(line, CLASSPATH) ==>
      !HasPrefix(line, COMPILER_FLAG) && !HasPrefix(line, KOTLIN_VERSION) && line != HAS_COMPOSE &&
      !HasPrefix(line, GENERATED_SOURCE_ROOT)
    ensures HasPrefix(line, COMPILER_FLAG) ==>
      !HasPrefix(line, KOTLIN_VERSION) && line != HAS_COMPOSE && !HasPrefix(line, GENERATED_SOURCE_ROOT)
    ensures HasPrefix(line, KOTLIN_VERSION) ==> line != HAS_COMPOSE && !HasPrefix(line, GENERATED_SOURCE_ROOT)
    ensures line == HAS_COMPOSE ==> !HasPrefix(line, GENERATED_SOURCE_ROOT)
  {
    if HasPrefix(line, SOURCE_ROOT) { PrefixAt(line, SOURCE_ROOT, 0); }
    if HasPrefix(line, CLASSPATH) { PrefixAt(line, CLASSPATH, 0); PrefixAt(line, CLASSPATH, 1); }
    if HasPrefix(line, COMPILER_FLAG) { PrefixAt(line, COMPILER_FLAG, 0); PrefixAt(line, COMPILER_FLAG, 1); }
    if HasPrefix(line, KOTLIN_VERSION) { PrefixAt(line, KOTLIN_VERSION, 0); }
    if HasPrefix(line, GENERATED_SOURCE_ROOT) { PrefixAt(line, GENERATED_SOURCE_ROOT, 0); }
  }

  /** The `if let … else if` chain of `parse_gradle_output` for one line inside the section. */
  method ReadSectionLine(facts: GradleFacts, line: string, ghost section: seq<string>) returns (next: GradleFacts)
    requires facts == FactsOf(section)
    ensures next == FactsOf(section + [line])
  {
    KeysExclusive(line);
    FieldStep(section, line, SOURCE_ROOT);
    FieldStep(section, line, CLASSPATH);
    FieldStep(section, line, COMPILER_FLAG);
    FieldStep(section, line, KOTLIN_VERSION);
    FieldStep(section, line, GENERATED_SOURCE_ROOT);
    next := facts;
    if HasPrefix(line, SOURCE_ROOT) {
      next := next.(sourceRoots := next.sourceRoots + [line[|SOURCE_ROOT|..]]);
    } else if HasPrefix(line, CLASSPATH) {
      next := next.(classpath := next.classpath + [line[|CLASSPATH|..]]);
    } else if HasPrefix(line, COMPILER_FLAG) {
      next := next.(flags := next.flags + [line[|COMPILER_FLAG|..]]);
    } else if HasPrefix(line, KOTLIN_VERSION) {
      next := next.(kotlinVersion := Some(line[|KOTLIN_VERSION|..]));
    } else if line == HAS_COMPOSE {
      next := next.(hasCompose := true);
    } else if HasPrefix(line, GENERATED_SOURCE_ROOT) {
      next := next.(generatedSourceRoots := next.generatedSourceRoots + [line[|GENERATED_SOURCE_ROOT|..]]);
    }
  }

  /** `parse_gradle_output`; it never fails. */
  method ParseGradleOutput(output: string, root: string, config: Config) returns (r: Result<ProjectModel, Error>)
    ensures r == Ok(GradleModel(output, root, config))
  {
    var lines := Lines(output);
    var facts := GradleFacts([], [], [], None, false, []);
    var inSection := false;
    ghost var section: seq<string> := [];
    var i := 0;
    while i < |lines|
      invariant i <= |lines|
      invariant SectionLines(lines, false) == section + SectionLines(lines[i..], inSection)
      invariant facts == FactsOf(section)
    {
      var line := Trim(lines[i], RUST_WHITESPACE);
      assert lines[i..][0] == lines[i] && lines[i..][1..] == lines[i + 1..];
      if line == SECTION_START {
        inSection := true;
      } else if line == SECTION_END {
        assert section == SectionLines(lines, false);
        break;
      } else if inSection {
        facts := ReadSectionLine(facts, line, section);
        section := section + [line];
      }
      i := i + 1;
    }
    assert section == SectionLines(lines, false);
    var flags := MergeFlags(facts.flags, config.compilerFlags);
    return Ok(ProjectModel(root, Gradle, facts.sourceRoots, facts.classpath, flags, facts.kotlinVersion,
                           config.javaHome, facts.hasCompose, facts.generatedSourceRoots));
  }

  /** Nothing before the start marker is read, and nothing after the end marker. */
  lemma {:induction false} OutsideMarkersIgnored(before: seq<string>, inside: seq<string>, after: seq<string>)
    requires forall i :: 0 <= i < |before| ==> Trim(before[i], RUST_WHITESPACE) != SECTION_START && Trim(before[i], RUST_WHITESPACE) != SECTION_END
    requires forall i :: 0 <= i < |inside| ==> Trim(inside[i], RUST_WHITESPACE) != SECTION_START && Trim(inside[i], RUST_WHITESPACE) != SECTION_END
    ensures SectionLines(before + [SECTION_START] + inside + [SECTION_END] + after, false) ==
      seq(|inside|, i requires 0 <= i < |inside| => Trim(inside[i], RUST_WHITESPACE))
  {
    var tail := [SECTION_END] + after;
    var rest := [SECTION_START] + (inside + tail);
    assert before + [SECTION_START] + inside + [SECTION_END] + after == before + rest;
    MarkerTrims();
    SkipOutside(before, rest);
    assert rest[0] == SECTION_START && rest[1..] == inside + tail;
    ReadInside(inside, tail);
  }

  /** The markers are already trimmed. */
  lemma MarkerTrims()
    ensures Trim(SECTION_START, RUST_WHITESPACE) == SECTION_START
    ensures Trim(SECTION_END, RUST_WHITESPACE) == SECTION_END
  {
    TrimNoop(SECTION_START, RUST_WHITESPACE);
    TrimNoop(SECTION_END, RUST_WHITESPACE);
  }

  lemma {:induction false} SkipOutside(before: seq<string>, rest: seq<string>)
    requires forall i :: 0 <= i < |before| ==> Trim(before[i], RUST_WHITESPACE) != SECTION_START && Trim(before[i], RUST_WHITESPACE) != SECTION_END
    ensures SectionLines(before + rest, false) == SectionLines(rest, false)
  {
    if before != [] {
      assert (before + rest)[0] == before[0];
      assert (before + rest)[1..] == before[1..] + rest;
      SkipOutside(before[1..], rest);
    } else {
      assert before + rest == rest;
    }
  }

  lemma {:induction false} ReadInside(inside: seq<string>, rest: seq<string>)
    requires forall i :: 0 <= i < |inside| ==> Trim(inside[i], RUST_WHITESPACE) != SECTION_START && Trim(inside[i], RUST_WHITESPACE) != SECTION_END
    requires rest != [] && Trim(rest[0], RUST_WHITESPACE) == SECTION_END
    ensures SectionLines(inside + rest, true) == seq(|inside|, i requires 0 <= i < |inside| => Trim(inside[i], RUST_WHITESPACE))
  {
    if inside != [] {
      assert (inside + rest)[0] == inside[0];
      assert (inside + rest)[1..] == inside[1..] + rest;
      ReadInside(inside[1..], rest);
    } else {
      assert inside + rest == rest;
    }
  }

  // ---------------------------------------------------------------- manual configuration

  /** `ManualProjectConfig`: every member may be left out. */
  datatype ManualProjectConfig = ManualProjectConfig(
    sourceRoots: seq<string>,
    classpath: seq<string>,
    compilerFlags: seq<string>,
    kotlinVersion: Option<string>,
    jdkHome: Option<string>)

  /** An `Option<String>` member: `null` reads as `None`. */
  function NullableString(v: Value): Option<Option<string>> {
    if v == Null then Some(None) else if v.Str? then Some(Some(v.s)) else None
  }

  /** The derived `Deserialize` of `ManualProjectConfig` (every member `#[serde(default)]`). */
  function DecodeManualConfig(v: Value): Option<ManualProjectConfig> {
    if !v.Obj? then None
    else
      var f := v.fields;
      match (DefaultedField(f, "sourceRoots", [], DecodeStrings),
             DefaultedField(f, "classpath", [], DecodeStrings),
             DefaultedField(f, "compilerFlags", [], DecodeStrings),
             DefaultedField(f, "kotlinVersion", None, NullableString),
             DefaultedField(f, "jdkHome", None, NullableString))
      case (Some(sr), Some(cp), Some(cf), Some(kv), Some(jh)) => Some(ManualProjectConfig(sr, cp, cf, kv, jh))
      case _ => None
  }

  /** The `.kotlin-analyzer.json` file as read: unreadable, or its text parsed as JSON (or not). */
  datatype ManualFile =
    | Unreadable
    | Contents(json: Option<Value>, serdeMessage: string)

  /** The paths of a manual list that exist, each made absolute, in their order. */
  function ExistingPaths(root: string, paths: seq<string>, existing: set<string>): (r: seq<string>)
    ensures forall i :: 0 <= i < |r| ==> r[i] in existing
  {
    var f := (p: string) => if ResolvePath(root, p) in existing then Some(ResolvePath(root, p)) else None;
    FilterMapFrom(paths, f);
    FilterMap(paths, f)
  }

  /** Paths that all exist are all kept, in order, absolute ones unchanged and relative ones under the root. */
  lemma {:induction false} ExistingPathsKept(root: string, paths: seq<string>, existing: set<string>)
    requires forall i :: 0 <= i < |paths| ==> ResolvePath(root, paths[i]) in existing
    ensures var r := ExistingPaths(root, paths, existing);
      |r| == |paths| &&
      forall i :: 0 <= i < |paths| ==>
        (IsAbsolute(paths[i]) ==> r[i] == paths[i]) && (!IsAbsolute(paths[i]) ==> r[i] == Join(root, paths[i]))
  {
    var f := (p: string) => if ResolvePath(root, p) in existing then Some(ResolvePath(root, p)) else None;
    FilterMapAll(paths, f);
  }

  /** A path that does not exist is dropped; the others keep their order. */
  lemma {:induction false} MissingPathDropped(root: string, before: seq<string>, path: string, after: seq<string>, existing: set<string>)
    requires ResolvePath(root, path) !in existing
    ensures ExistingPaths(root, before + [path] + after, existing) ==
      ExistingPaths(root, before, existing) + ExistingPaths(root, after, existing)
  {
    var f := (p: string) => if ResolvePath(root, p) in existing then Some(ResolvePath(root, p)) else None;
    FilterMapSkip(before, path, after, f);
  }

  /** The result `resolve_manual_config` gives. */
  function ManualModel(file: ManualFile, root: string, config: Config, existing: set<string>): Result<ProjectModel, Error> {
    match file
    case Unreadable => Err(Io)
    case Contents(json, message) =>
      var manual := if json.Some? then DecodeManualConfig(json.value) else None;
      match manual
      case None => Err(Project(ClasspathExtraction("invalid .kotlin-analyzer.json: " + message)))
      case Some(m) =>
        Ok(ProjectModel(
          root, NoBuild,
          ExistingPaths(root, m.sourceRoots, existing),
          ExistingPaths(root, m.classpath, existing),
          MergedFlags(m.compilerFlags, config.compilerFlags),
          m.kotlinVersion,
          if m.jdkHome.Some? then m.jdkHome else config.javaHome,
          false, []))
  }

  /** `resolve_manual_config`. */
  method ResolveManualConfig(file: ManualFile, root: string, config: Config, existing: set<string>)
    returns (r: Result<ProjectModel, Error>)
    ensures r == ManualModel(file, root, config, existing)
  {
    if file.Unreadable? {
      return Err(Io);
    }
    var manual := if file.json.Some? then DecodeManualConfig(file.json.value) else None;
    if manual.None? {
      return Err(Project(ClasspathExtraction("invalid .kotlin-analyzer.json: " + file.serdeMessage)));
    }
    var m := manual.value;
    var flags := MergeFlags(m.compilerFlags, config.compilerFlags);
    var jdkHome := if m.jdkHome.Some? then m.jdkHome else config.javaHome;
    r := Ok(ProjectModel(root, NoBuild, ExistingPaths(root, m.sourceRoots, existing), ExistingPaths(root, m.classpath, existing),
                         flags, m.kotlinVersion, jdkHome, false, []));
  }

  /** The JDK named in the manual file wins over the configured one; without it, the configured one is used. */
  lemma ManualJdkHome(json: Value, message: string, root: string, config: Config, existing: set<string>)
    requires DecodeManualConfig(json).Some?
    ensures var r := ManualModel(Contents(Some(json), message), root, config, existing);
      var m := DecodeManualConfig(json).value;
      && r.Ok?
      && (m.jdkHome.Some? ==> r.value.jdkHome == m.jdkHome)
      && (m.jdkHome.None? ==> r.value.jdkHome == config.javaHome)
      && r.value.buildSystem == NoBuild
  {
  }

  // ---------------------------------------------------------------- resolution

  /**
   * `resolve_project`: the manual file first, then the detected build system;
   * Gradle's outcome is the init script's output (or the failure to run it),
   * Maven's the whole resolution, which is not modelled here.
   */
  method ResolveProject(root: string, config: Config, existing: set<string>, manual: ManualFile,
                        gradleRun: Result<string, Error>, mavenOutcome: Result<ProjectModel, Error>)
    returns (r: Result<ProjectModel, Error>)
    ensures Join(root, ".kotlin-analyzer.json") in existing ==> r == ManualModel(manual, root, config, existing)
    ensures Join(root, ".kotlin-analyzer.json") !in existing ==>
      (match DetectBuildSystem(root, existing)
       case Gradle => r == (if gradleRun.Ok? then Ok(GradleModel(gradleRun.value, root, config)) else Err(gradleRun.error))
       case Maven => r == mavenOutcome
       case NoBuild => r == Ok(NoBuildSystemModel(root).(sourceRoots := FindKotlinSourceRoots(root, existing),
                                                          compilerFlags := config.compilerFlags)))
  {
    if Join(root, ".kotlin-analyzer.json") in existing {
      r := ResolveManualConfig(manual, root, config, existing);
      return;
    }
    match DetectBuildSystem(root, existing)
    case Gradle =>
      if gradleRun.Err? {
        return Err(gradleRun.error);
      }
      r := ParseGradleOutput(gradleRun.value, root, config);
    case Maven =>
      r := mavenOutcome;
    case NoBuild =>
      var model := NoBuildSystemModel(root);
      model := model.(sourceRoots := FindKotlinSourceRoots(root, existing));
      model := model.(compilerFlags := config.compilerFlags);
      r := Ok(model);
  }

  /** The manual file takes priority even where a Gradle build exists. */
  method ManualOverridesDetection(root: string, config: Config, existing: set<string>, json: Value,
                                  gradleRun: Result<string, Error>, mavenOutcome: Result<ProjectModel, Error>)
    returns (r: Result<ProjectModel, Error>)
    requires Join(root, ".kotlin-analyzer.json") in existing && Join(root, "build.gradle.kts") in existing
    requires json == Obj(map["compilerFlags" := Arr([Str("-Xcontext-parameters")]), "kotlinVersion" := Str("2.1.20")])
    requires config == DefaultConfig()
    ensures r.Ok? && r.value.buildSystem == NoBuild
    ensures r.value.compilerFlags == ["-Xcontext-parameters"] && r.value.kotlinVersion == Some("2.1.20")
  {
    FlagsKeptInOrder(["-Xcontext-parameters"]);
    assert seq(1, i requires 0 <= i < 1 => Str(["-Xcontext-parameters"][i])) == [Str("-Xcontext-parameters")];
    r := ResolveProject(root, config, existing, Contents(Some(json), ""), gradleRun, mavenOutcome);
  }
}

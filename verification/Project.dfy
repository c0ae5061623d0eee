/** The project catalog, project scans, and the facts they hand to classification. */
module Project {
  import opened DiscoveryDomain
  import opened Text
  import opened Classification
  import PathKey

  const MAX_PROJECT_CATALOG_ENTRIES: nat := 4096
  const MAX_PROJECT_FEATURES: nat := 32

  type Path = PathKey.Key

  /** What the host platform knows about paths. */
  datatype Platform = Platform(
    isAbsolute: string -> bool,
    isDirectChild: (string, string, string) -> bool)

  datatype RegisteredProject = RegisteredProject(id: string, rootDirectory: string, path: Path)

  datatype Catalog = Catalog(byRoot: map<Path, RegisteredProject>, ids: set<string>)

  const EMPTY_CATALOG := Catalog(map[], {})

  ghost predicate ValidCatalog(catalog: Catalog) {
    forall k | k in catalog.byRoot :: catalog.byRoot[k].path == k && catalog.byRoot[k].id in catalog.ids
  }

  ghost predicate BoundedIds(ids: set<string>) {
    forall id | id in ids :: NonEmptyBounded(id, MAX_PROJECT_ID_BYTES)
  }

  predicate ValidProject(platform: Platform, project: RegisteredProject) {
    && NonEmptyBounded(project.id, MAX_PROJECT_ID_BYTES)
    && NonEmptyBounded(project.rootDirectory, PathKey.MAX_PROJECT_PATH_BYTES)
    && platform.isAbsolute(project.rootDirectory)
  }

  function WithProject(catalog: Catalog, project: RegisteredProject): Catalog {
    Catalog(catalog.byRoot[project.path := project], catalog.ids + {project.id})
  }

  function CatalogOf(projects: seq<RegisteredProject>): Catalog {
    if projects == [] then EMPTY_CATALOG
    else WithProject(CatalogOf(projects[..|projects| - 1]), projects[|projects| - 1])
  }

  /** Bounded absolute paths, distinct ids and distinct roots. */
  predicate ValidProjects(platform: Platform, projects: seq<RegisteredProject>) {
    projects == []
    || (var front, last := projects[..|projects| - 1], projects[|projects| - 1];
        && ValidProjects(platform, front)
        && ValidProject(platform, last)
        && last.id !in CatalogOf(front).ids
        && last.path !in CatalogOf(front).byRoot)
  }

  /** A list is valid exactly if every project is, and no two share an id or a root. */
  lemma {:induction false} ValidProjectsAreDistinct(platform: Platform, projects: seq<RegisteredProject>)
    ensures ValidProjects(platform, projects)
            <==> && (forall i | 0 <= i < |projects| :: ValidProject(platform, projects[i]))
                 && (forall i, j | 0 <= i < j < |projects| ::
                       projects[i].id != projects[j].id && projects[i].path != projects[j].path)
  {
    hide ValidProject;
    if projects != [] {
      var front := projects[..|projects| - 1];
      ValidProjectsAreDistinct(platform, front);
      assert forall i | 0 <= i < |front| :: front[i] == projects[i];
      RegisteredAreListed(front);
    }
  }

  lemma {:induction false} RegisteredAreListed(projects: seq<RegisteredProject>)
    ensures forall id :: id in CatalogOf(projects).ids <==> exists i :: 0 <= i < |projects| && projects[i].id == id
    ensures forall p :: p in CatalogOf(projects).byRoot <==> exists i :: 0 <= i < |projects| && projects[i].path == p
  {
    if projects != [] {
      var front := projects[..|projects| - 1];
      RegisteredAreListed(front);
      assert forall i | 0 <= i < |front| :: front[i] == projects[i];
    }
  }

  lemma {:induction false} PrefixesAreValid(platform: Platform, projects: seq<RegisteredProject>, n: nat)
    requires ValidProjects(platform, projects) && n <= |projects|
    ensures ValidProjects(platform, projects[..n])
  {
    if n < |projects| {
      var front := projects[..|projects| - 1];
      PrefixesAreValid(platform, front, n);
      assert front[..n] == projects[..n];
    } else {
      assert projects[..n] == projects;
    }
  }

  ghost predicate Holds(catalog: Catalog, projects: seq<RegisteredProject>) {
    && ValidCatalog(catalog)
    && (forall p | p in projects ::
          p.id in catalog.ids && p.path in catalog.byRoot && catalog.byRoot[p.path] == p)
    && (forall k | k in catalog.byRoot :: catalog.byRoot[k] in projects)
    && |catalog.byRoot| == |catalog.ids| == |projects|
  }

  lemma HoldsGrows(catalog: Catalog, front: seq<RegisteredProject>, last: RegisteredProject)
    requires Holds(catalog, front)
    requires last.id !in catalog.ids && last.path !in catalog.byRoot
    ensures Holds(WithProject(catalog, last), front + [last])
  {
    hide ValidCatalog;
    var after := WithProject(catalog, last);
    OneMoreEntry(catalog.byRoot, last.path, last);
    StillValid(catalog, last);
    forall p | p in front + [last]
      ensures p.id in after.ids && p.path in after.byRoot && after.byRoot[p.path] == p
    {
      assert p == last || p in front;
      assert p in front ==> p.path != last.path;
    }
    forall k | k in after.byRoot ensures after.byRoot[k] in front + [last] {
      assert k != last.path ==> catalog.byRoot[k] in front;
    }
  }

  lemma OneMoreEntry<K, V>(table: map<K, V>, key: K, value: V)
    requires key !in table
    ensures |table[key := value]| == |table| + 1
  {
    assert table[key := value].Keys == table.Keys + {key};
  }

  lemma StillValid(catalog: Catalog, last: RegisteredProject)
    requires ValidCatalog(catalog)
    ensures ValidCatalog(WithProject(catalog, last))
  {
  }

  /** A catalog holds exactly the projects it was built from, each under its own root. */
  lemma {:induction false} CatalogHoldsProjects(platform: Platform, projects: seq<RegisteredProject>)
    requires ValidProjects(platform, projects)
    ensures Holds(CatalogOf(projects), projects)
  {
    hide WithProject, ValidProject;
    if projects != [] {
      var front, last := projects[..|projects| - 1], projects[|projects| - 1];
      CatalogHoldsProjects(platform, front);
      HoldsGrows(CatalogOf(front), front, last);
      assert projects == front + [last];
    }
  }

  lemma {:induction false} CatalogIdsAreBounded(platform: Platform, projects: seq<RegisteredProject>)
    requires ValidProjects(platform, projects)
    ensures BoundedIds(CatalogOf(projects).ids)
  {
    if projects != [] {
      CatalogIdsAreBounded(platform, projects[..|projects| - 1]);
    }
  }

  /** A valid list of projects, and no other, makes a catalog. */
  method NewCatalog(platform: Platform, projects: seq<RegisteredProject>) returns (catalog: Result<Catalog>)
    ensures catalog ==
            if |projects| <= MAX_PROJECT_CATALOG_ENTRIES && ValidProjects(platform, projects)
            then Ok(CatalogOf(projects)) else Err(InvalidArgument)
  {
    if |projects| > MAX_PROJECT_CATALOG_ENTRIES {
      return Err(InvalidArgument);
    }
    var found := EMPTY_CATALOG;
    for i := 0 to |projects|
      invariant ValidProjects(platform, projects[..i])
      invariant found == CatalogOf(projects[..i])
    {
      var project := projects[i];
      assert projects[..i + 1][..i] == projects[..i];
      if !ValidProject(platform, project) || project.id in found.ids || project.path in found.byRoot {
        if ValidProjects(platform, projects) {
          PrefixesAreValid(platform, projects, i + 1);
        }
        return Err(InvalidArgument);
      }
      found := WithProject(found, project);
    }
    assert projects[..|projects|] == projects;
    catalog := Ok(found);
  }

  // ----- The nearest registered ancestor -----

  predicate IsAncestorOrSelf(ancestor: Path, path: Path) {
    ancestor.root == path.root && ancestor.components <= path.components
  }

  /** The deepest registered ancestor; ancestors are the component prefixes. */
  ghost predicate IsNearest(catalog: Catalog, path: Path, found: Option<RegisteredProject>) {
    match found
    case None => forall k | k in catalog.byRoot :: !IsAncestorOrSelf(k, path)
    case Some(project) =>
      && project.path in catalog.byRoot && catalog.byRoot[project.path] == project
      && IsAncestorOrSelf(project.path, path)
      && forall k | k in catalog.byRoot && IsAncestorOrSelf(k, path) ::
           |k.components| <= |project.path.components|
  }

  function NearestProject(catalog: Catalog, path: Path): Option<RegisteredProject>
    decreases |path.components|
  {
    if path in catalog.byRoot then Some(catalog.byRoot[path])
    else if path.components == [] then None
    else NearestProject(catalog, path.(components := path.components[..|path.components| - 1]))
  }

  lemma {:induction false} NearestIsDeepest(catalog: Catalog, path: Path)
    requires ValidCatalog(catalog)
    ensures IsNearest(catalog, path, NearestProject(catalog, path))
    decreases |path.components|
  {
    if path !in catalog.byRoot {
      forall k | k in catalog.byRoot && IsAncestorOrSelf(k, path) ensures |k.components| < |path.components| {
        assert |k.components| == |path.components| ==> k.components == path.components;
      }
      if path.components != [] {
        NearestIsDeepest(catalog, path.(components := path.components[..|path.components| - 1]));
      }
    }
  }

  /** Popping one component at a time from a candidate. */
  method FindNearestProject(catalog: Catalog, path: Path) returns (found: Option<RegisteredProject>)
    requires ValidCatalog(catalog)
    ensures IsNearest(catalog, path, found) && found == NearestProject(catalog, path)
  {
    NearestIsDeepest(catalog, path);
    var candidate := path;
    while candidate !in catalog.byRoot
      invariant NearestProject(catalog, candidate) == NearestProject(catalog, path)
      decreases |candidate.components|
    {
      if candidate.components == [] {
        return None;
      }
      candidate := candidate.(components := candidate.components[..|candidate.components| - 1]);
    }
    found := Some(catalog.byRoot[candidate]);
  }

  function AssociationFor(catalog: Catalog, normalized: Evidence<Path>): Evidence<Association> {
    match normalized
    case Proven(path) =>
      (match NearestProject(catalog, path)
       case Some(project) => Proven(Association(project.id, project.rootDirectory))
       case None => Missing)
    case Missing => Missing
    case Undetermined => Undetermined
    case Limited(reason) => Limited(reason)
    case Unsupported => Unsupported
  }

  /** Found is the deepest registered project around a known path, missing means that there is none. */
  lemma AssociationIsNearest(catalog: Catalog, normalized: Evidence<Path>)
    requires ValidCatalog(catalog)
    ensures var found := AssociationFor(catalog, normalized);
            match normalized
            case Proven(path) =>
              && (found.Proven? || found.Missing?)
              && (found.Missing? <==> IsNearest(catalog, path, None))
              && (found.Proven? ==>
                    exists project ::
                      && IsNearest(catalog, path, Some(project))
                      && found.value == Association(project.id, project.rootDirectory))
            case Missing => found.Missing?
            case Undetermined => found.Undetermined?
            case Limited(reason) => found == Limited(reason)
            case Unsupported => found.Unsupported?
  {
    if normalized.Proven? {
      NearestIsDeepest(catalog, normalized.value);
      if NearestProject(catalog, normalized.value).Some? {
        assert IsNearest(catalog, normalized.value, NearestProject(catalog, normalized.value));
      }
    }
  }

  // ----- Scan results -----

  datatype Marker = Marker(id: string, fileName: string)

  const PROJECT_MARKERS: seq<Marker> := [
    Marker("node.packageJson", "package.json"),
    Marker("rust.cargoToml", "Cargo.toml"),
    Marker("go.module", "go.mod"),
    Marker("java.mavenPom", "pom.xml"),
    Marker("java.gradleSettingsKts", "settings.gradle.kts"),
    Marker("java.gradleSettings", "settings.gradle"),
    Marker("java.gradleBuildKts", "build.gradle.kts"),
    Marker("java.gradleBuild", "build.gradle"),
    Marker("python.pyproject", "pyproject.toml"),
    Marker("python.requirements", "requirements.txt"),
    Marker("python.pipfile", "Pipfile"),
    Marker("ruby.gemfile", "Gemfile"),
    Marker("php.composerJson", "composer.json"),
    Marker("dotnet.globalJson", "global.json"),
    Marker("native.cmakeLists", "CMakeLists.txt"),
    Marker("native.makefile", "Makefile")]

  datatype ScanRequest = ScanRequest(
    key: ProcessKey, expectedDirectory: string, catalog: Catalog, generation: nat)

  datatype ScanResult = ScanResult(
    key: ProcessKey, expectedDirectory: string, generation: nat,
    normalized: Evidence<Path>,
    association: Evidence<Association>,
    features: Evidence<seq<Feature>>)

  /** The index of a marker, or the number of markers when there is none. */
  function MarkerIndex(markers: seq<Marker>, id: string): (r: nat)
    ensures r <= |markers|
    ensures r < |markers| ==> markers[r].id == id
  {
    if markers == [] || markers[0].id == id then 0 else 1 + MarkerIndex(markers[1..], id)
  }

  predicate ValidFeature(platform: Platform, markers: seq<Marker>, feature: Feature, detectedRoot: string) {
    var index := MarkerIndex(markers, feature.markerId);
    && index < |markers|
    && NonEmptyBounded(feature.markerPath, PathKey.MAX_PROJECT_PATH_BYTES)
    && NonEmptyBounded(feature.detectedRoot, PathKey.MAX_PROJECT_PATH_BYTES)
    && platform.isAbsolute(feature.markerPath) && platform.isAbsolute(feature.detectedRoot)
    && feature.detectedRoot == detectedRoot
    && platform.isDirectChild(feature.markerPath, feature.detectedRoot, markers[index].fileName)
  }

  /** Known markers in fixed order, hence without repetition, all directly below one root. */
  ghost predicate ValidFeatures(platform: Platform, markers: seq<Marker>, features: seq<Feature>) {
    && |features| <= MAX_PROJECT_FEATURES
    && (forall i | 0 <= i < |features| :: ValidFeature(platform, markers, features[i], features[0].detectedRoot))
    && (forall i, j | 0 <= i < j < |features| ::
          MarkerIndex(markers, features[i].markerId) < MarkerIndex(markers, features[j].markerId))
  }

  /** Remembering the last index is enough: a repeated marker id can never come after it. */
  method ValidateFeatureEvidence(platform: Platform, markers: seq<Marker>, features: seq<Feature>)
    returns (valid: bool)
    ensures valid <==> ValidFeatures(platform, markers, features)
  {
    hide ValidFeature, MarkerIndex;
    if |features| > MAX_PROJECT_FEATURES {
      return false;
    }
    var lastIndex: int := -1;
    for i := 0 to |features|
      invariant lastIndex == if i == 0 then -1 else MarkerIndex(markers, features[i - 1].markerId)
      invariant forall k | 0 <= k < i :: ValidFeature(platform, markers, features[k], features[0].detectedRoot)
      invariant forall k | 0 <= k < i :: MarkerIndex(markers, features[k].markerId) <= lastIndex
      invariant forall j, k | 0 <= j < k < i ::
                  MarkerIndex(markers, features[j].markerId) < MarkerIndex(markers, features[k].markerId)
    {
      var index := MarkerIndex(markers, features[i].markerId);
      if index <= lastIndex || !ValidFeature(platform, markers, features[i], features[0].detectedRoot) {
        return false;
      }
      lastIndex := index;
    }
    valid := true;
  }

  predicate StatesConsistent(normalized: Evidence<Path>, features: Evidence<seq<Feature>>) {
    match normalized
    case Proven(_) => features.Proven? || features.Limited? || features.Unsupported?
    case Missing => features.Missing?
    case Undetermined => features.Undetermined?
    case Limited(_) => features.Limited?
    case Unsupported => features.Unsupported?
  }

  ghost predicate ValidFor(platform: Platform, result: ScanResult, request: ScanRequest) {
    && result.key == request.key
    && result.expectedDirectory == request.expectedDirectory
    && result.generation == request.generation
    && StatesConsistent(result.normalized, result.features)
    && (result.features.Proven? ==> ValidFeatures(platform, PROJECT_MARKERS, result.features.value))
    && result.association == AssociationFor(request.catalog, result.normalized)
  }

  method ValidateFor(platform: Platform, result: ScanResult, request: ScanRequest) returns (valid: bool)
    ensures valid <==> ValidFor(platform, result, request)
  {
    if result.key != request.key || result.expectedDirectory != request.expectedDirectory
       || result.generation != request.generation {
      return false;
    }
    if !StatesConsistent(result.normalized, result.features) {
      return false;
    }
    if result.features.Proven? {
      var featuresValid := ValidateFeatureEvidence(platform, PROJECT_MARKERS, result.features.value);
      if !featuresValid {
        return false;
      }
    }
    valid := result.association == AssociationFor(request.catalog, result.normalized);
  }

  function FactsOf(association: Evidence<Association>, features: Evidence<seq<Feature>>): Facts {
    Facts(
      if association.Proven? then Some(association.value.projectId) else None,
      if features.Proven? && features.value != [] then Some(features.value[0].markerId) else None)
  }

  predicate WellNamed(marker: Marker) {
    0 < |marker.id| <= 22 && 'a' <= marker.id[0] <= 'z'
  }

  lemma WellNamedIsBounded(marker: Marker)
    requires WellNamed(marker)
    ensures NonEmptyBounded(marker.id, MAX_PROJECT_FEATURE_ID_BYTES)
  {
    assert !IsWhitespace(marker.id[0]);
    AsciiLength(marker.id);
  }

  lemma MarkersAreWellNamed()
    ensures forall i | 0 <= i < |PROJECT_MARKERS| :: WellNamed(PROJECT_MARKERS[i])
  {
  }

  lemma {:induction false} AsciiLength(s: string)
    ensures ByteLength(s) <= 4 * |s|
  {
    if s != "" {
      AsciiLength(s[1..]);
    }
  }

  /** Once engine and catalog name the same projects, no validated scan is refused for its facts. */
  lemma ValidatedFactsAreAccepted(
    platform: Platform, result: ScanResult, request: ScanRequest, engine: Engine)
    requires ValidCatalog(request.catalog) && BoundedIds(request.catalog.ids)
    requires engine.known == request.catalog.ids
    requires ValidFor(platform, result, request)
    ensures ValidFacts(engine, FactsOf(result.association, result.features))
  {
    if result.association.Proven? {
      NearestIsDeepest(request.catalog, result.normalized.value);
    }
    if result.features.Proven? && result.features.value != [] {
      var feature := result.features.value[0];
      assert ValidFeature(platform, PROJECT_MARKERS, feature, feature.detectedRoot);
      MarkersAreWellNamed();
      WellNamedIsBounded(PROJECT_MARKERS[MarkerIndex(PROJECT_MARKERS, feature.markerId)]);
    }
  }
}

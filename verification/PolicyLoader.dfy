/** Loading policies: every description is filed under its name and version, and one of the
    versions becomes the default for the name. */
module PolicyLoader {

  import opened SemanticVersions

  // ---- Descriptions -------------------------------------------------------------------

  type Impl = string

  /** The directory cannot be read, the module fails to load, or it yields an implementation. */
  datatype Source = Unreadable | Fails | Loads(impl: Impl)

  datatype Description = Description(name: string, version: string, path: string, source: Source)

  /** How version texts are parsed, and the loader's option. */
  datatype Setup = Setup(parse: string -> Version, override: bool)

  predicate Older(cfg: Setup, v: string, w: string) { Less(cfg.parse(v), cfg.parse(w)) }

  predicate Equal(cfg: Setup, v: string, w: string) { cfg.parse(v) == cfg.parse(w) }

  /** Names and versioned names share one table. */
  datatype State = State(policies: map<string, Impl>, versions: map<string, seq<string>>, paths: seq<string>)

  const EMPTY := State(map[], map[], [])

  function Index(d: Description): string { if d.version == "" then d.name else d.name + ":" + d.version }

  function Known(s: State, name: string): seq<string> {
    if name in s.versions then s.versions[name] else []
  }

  /** A version of this precedence is on record. */
  predicate OnRecord(cfg: Setup, known: seq<string>, v: string) {
    exists k | 0 <= k < |known| :: Equal(cfg, v, known[k])
  }

  predicate GreaterOnRecord(cfg: Setup, known: seq<string>, v: string) {
    exists k | 0 <= k < |known| :: Older(cfg, v, known[k])
  }

  /** The effect of one description. */
  function Load(s: State, d: Description, cfg: Setup): State {
    var known := Known(s, d.name);
    if d.source.Unreadable? || (!cfg.override && OnRecord(cfg, known, d.version)) then s
    else
      var filed := s.(versions := s.versions[d.name := known + [d.version]], paths := s.paths + [d.path]);
      if d.source.Fails? || (!cfg.override && Index(d) in s.policies) then filed
      else
        var policies := s.policies[Index(d) := d.source.impl];
        filed.(policies := if GreaterOnRecord(cfg, known, d.version) then policies
            else policies[d.name := d.source.impl])
  }

  function LoadAll(ds: seq<Description>, cfg: Setup): State {
    if ds == [] then EMPTY else Load(LoadAll(ds[..|ds| - 1], cfg), ds[|ds| - 1], cfg)
  }

  // ---- The loader ---------------------------------------------------------------------

  class Loader {
    var policies: map<string, Impl>
    var paths: seq<string>

    /** The override option is true unless configured otherwise. */
    constructor (ds: seq<Description>, parse: string -> Version, configured: bool, value: bool)
      ensures var s := LoadAll(ds, Setup(parse, !configured || value)); policies == s.policies && paths == s.paths
    {
      policies, paths := map[], [];
      new;
      var override, policyVersions: map<string, seq<string>> := true, map[];
      if configured { override := value; }
      var cfg := Setup(parse, override);
      for i := 0 to |ds|
        invariant State(policies, policyVersions, paths) == LoadAll(ds[..i], cfg)
      {
        ghost var s := State(policies, policyVersions, paths);
        assert ds[..i + 1][..i] == ds[..i];
        var d := ds[i];
        if !d.source.Unreadable? {
          policyVersions := LoadPolicy(d, cfg, policyVersions);
        }
        assert State(policies, policyVersions, paths) == Load(s, d, cfg);
      }
      assert ds[..|ds|] == ds;
    }

    method LoadPolicy(d: Description, cfg: Setup, versions: map<string, seq<string>>)
      returns (policyVersions: map<string, seq<string>>)
      requires !d.source.Unreadable?
      modifies this
      ensures State(policies, policyVersions, paths) == Load(State(old(policies), versions, old(paths)), d, cfg)
    {
      policyVersions := versions;
      var policyIndex := if d.version != "" then d.name + ":" + d.version else d.name;
      var makePolicyDefault, exactMatchFound := true, false;
      if d.name in versions {
        var versionArray := versions[d.name];
        for k := 0 to |versionArray|
          invariant unchanged(this)
          invariant makePolicyDefault <==> !exists j :: 0 <= j < k && Older(cfg, d.version, versionArray[j])
          invariant exactMatchFound
              <==> !cfg.override && exists j :: 0 <= j < k && Equal(cfg, d.version, versionArray[j])
        {
          VersionOrder(cfg.parse(d.version), cfg.parse(versionArray[k]), cfg.parse(d.version));
          if Less(cfg.parse(d.version), cfg.parse(versionArray[k])) {
            makePolicyDefault := false;
          } else if cfg.parse(d.version) == cfg.parse(versionArray[k]) {
            if !cfg.override { exactMatchFound := true; }
          }
        }
        assert exactMatchFound <==> !cfg.override && OnRecord(cfg, versionArray, d.version);
        if !exactMatchFound {
          policyVersions := versions[d.name := versionArray + [d.version]];
          paths := paths + [d.path];
        }
      } else {
        assert [] + [d.version] == [d.version];
        policyVersions := versions[d.name := [d.version]];
        paths := paths + [d.path];
      }
      if !exactMatchFound {
        if policyIndex in policies && !cfg.override { return; }
        if d.source.Loads? {
          policies := policies[policyIndex := d.source.impl];
          if makePolicyDefault { policies := policies[d.name := d.source.impl]; }
        }
      }
    }
  }

  // ---- What the loop over known versions finds -------------------------------------------

  predicate Read(ds: seq<Description>, i: nat, name: string) {
    i < |ds| && ds[i].name == name && !ds[i].source.Unreadable?
  }

  /** Without override a repeated version is skipped, even when the earlier one failed to load. */
  predicate Skipped(ds: seq<Description>, i: nat, cfg: Setup)
    requires i < |ds|
  {
    exists j: nat :: j < i && Read(ds, j, ds[i].name) && Equal(cfg, ds[i].version, ds[j].version)
  }

  /** A greater version of the name was read before. */
  predicate Overtaken(ds: seq<Description>, i: nat, cfg: Setup)
    requires i < |ds|
  {
    exists j: nat :: j < i && Read(ds, j, ds[i].name) && Older(cfg, ds[i].version, ds[j].version)
  }

  predicate ReadVersion(ds: seq<Description>, i: nat, cfg: Setup, name: string, v: string) {
    Read(ds, i, name) && Equal(cfg, v, ds[i].version)
  }

  /** The precedences on record are those that were read, loaded or not. */
  lemma {:induction false} KnownVersions(ds: seq<Description>, cfg: Setup, name: string, v: string)
    ensures OnRecord(cfg, Known(LoadAll(ds, cfg), name), v) <==> exists i: nat :: ReadVersion(ds, i, cfg, name, v)
  {
    if ds != [] {
      var front, d := ds[..|ds| - 1], ds[|ds| - 1];
      KnownVersions(front, cfg, name, v);
      KnownStep(LoadAll(front, cfg), d, cfg, name, v);
      assert forall i: nat :: i < |front| ==> ReadVersion(ds, i, cfg, name, v) == ReadVersion(front, i, cfg, name, v);
      if ReadVersion(front + [d], |front|, cfg, name, v) { assert ReadVersion(ds, |front|, cfg, name, v); }
    }
  }

  lemma OnRecordPush(cfg: Setup, known: seq<string>, w: string, v: string)
    ensures OnRecord(cfg, known + [w], v) <==> OnRecord(cfg, known, v) || Equal(cfg, v, w)
  {
    var more := known + [w];
    if OnRecord(cfg, known, v) {
      var k :| 0 <= k < |known| && Equal(cfg, v, known[k]);
      assert more[k] == known[k];
    }
    assert more[|known|] == w;
  }

  lemma KnownStep(s: State, d: Description, cfg: Setup, name: string, v: string)
    ensures OnRecord(cfg, Known(Load(s, d, cfg), name), v)
       <==> OnRecord(cfg, Known(s, name), v) || (d.name == name && Equal(cfg, v, d.version) && !d.source.Unreadable?)
  {
    OnRecordPush(cfg, Known(s, d.name), d.version, v);
  }

  lemma KnownIsRead(ds: seq<Description>, cfg: Setup, v: string)
    requires ds != []
    ensures var i := |ds| - 1;
            OnRecord(cfg, Known(LoadAll(ds[..i], cfg), ds[i].name), v)
            <==> exists j: nat :: j < i && Read(ds, j, ds[i].name) && Equal(cfg, v, ds[j].version)
  {
    var i := |ds| - 1;
    KnownVersions(ds[..i], cfg, ds[i].name, v);
    assert forall j: nat | j < i ::
        ReadVersion(ds[..i], j, cfg, ds[i].name, v) <==> Read(ds, j, ds[i].name) && Equal(cfg, v, ds[j].version);
  }

  /** What the loop finds out about the last description. */
  lemma LastStatus(ds: seq<Description>, cfg: Setup)
    requires ds != []
    ensures var i := |ds| - 1;
            var d, known := ds[i], Known(LoadAll(ds[..i], cfg), ds[i].name);
            && (OnRecord(cfg, known, d.version) <==> Skipped(ds, i, cfg))
            && (GreaterOnRecord(cfg, known, d.version) <==> Overtaken(ds, i, cfg))
  {
    var i := |ds| - 1;
    var d, known := ds[i], Known(LoadAll(ds[..i], cfg), ds[i].name);
    KnownIsRead(ds, cfg, d.version);
    if k :| 0 <= k < |known| && Older(cfg, d.version, known[k]) {
      KnownIsRead(ds, cfg, known[k]);
      assert Equal(cfg, known[k], known[k]);
      var j: nat :| j < i && Read(ds, j, d.name) && Equal(cfg, known[k], ds[j].version);
      assert Older(cfg, d.version, ds[j].version);
    }
    if Overtaken(ds, i, cfg) {
      var j: nat :| j < i && Read(ds, j, d.name) && Older(cfg, d.version, ds[j].version);
      KnownIsRead(ds, cfg, ds[j].version);
      assert Equal(cfg, ds[j].version, ds[j].version);
      var k :| 0 <= k < |known| && Equal(cfg, ds[j].version, known[k]);
      assert Older(cfg, d.version, known[k]);
    }
  }

  // ---- Which description a key holds ----------------------------------------------------

  /** Without override, a key that is taken already is not filed again. */
  predicate Guarded(ds: seq<Description>, i: nat, cfg: Setup)
    requires i < |ds|
  {
    Index(ds[i]) in LoadAll(ds[..i], cfg).policies
  }

  predicate Applied(ds: seq<Description>, i: nat, cfg: Setup) {
    i < |ds| && ds[i].source.Loads? && (cfg.override || (!Skipped(ds, i, cfg) && !Guarded(ds, i, cfg)))
  }

  /** Description i is written to the table under this key, as its version or as its default. */
  predicate Writes(ds: seq<Description>, i: nat, cfg: Setup, key: string) {
    Applied(ds, i, cfg) && (key == Index(ds[i]) || (key == ds[i].name && !Overtaken(ds, i, cfg)))
  }

  predicate Holds(ds: seq<Description>, i: nat, cfg: Setup, key: string) {
    Writes(ds, i, cfg, key) && forall j: nat | i < j < |ds| :: !Writes(ds, j, cfg, key)
  }

  /** The predicates look at a description and those before it. */
  lemma SameOnPrefix(ds: seq<Description>, front: seq<Description>, i: nat, cfg: Setup)
    requires ds != [] && front == ds[..|ds| - 1] && i < |front|
    ensures Skipped(ds, i, cfg) == Skipped(front, i, cfg) && Overtaken(ds, i, cfg) == Overtaken(front, i, cfg)
    ensures Applied(ds, i, cfg) == Applied(front, i, cfg)
  {
    assert forall j: nat | j < i :: Read(ds, j, ds[i].name) == Read(front, j, ds[i].name);
    assert forall j: nat | j < i :: ds[j] == front[j];
    assert ds[..i] == front[..i];
  }

  lemma SameWrites(ds: seq<Description>, i: nat, cfg: Setup, key: string)
    requires i < |ds| - 1
    ensures Writes(ds, i, cfg, key) == Writes(ds[..|ds| - 1], i, cfg, key)
  {
    SameOnPrefix(ds, ds[..|ds| - 1], i, cfg);
  }

  /** How the last description changes the table. */
  lemma LoadLast(ds: seq<Description>, cfg: Setup)
    requires ds != []
    ensures var i := |ds| - 1;
            var before, d := LoadAll(ds[..i], cfg).policies, ds[i];
            LoadAll(ds, cfg).policies ==
              if !Applied(ds, i, cfg) then before
              else if Overtaken(ds, i, cfg) then before[Index(d) := d.source.impl]
              else before[Index(d) := d.source.impl][d.name := d.source.impl]
  {
    LastStatus(ds, cfg);
  }

  /** For every list of descriptions: a key holds the last description written under it. */
  lemma {:induction false} TableKeys(ds: seq<Description>, cfg: Setup, key: string)
    ensures var p := LoadAll(ds, cfg).policies;
            && (key in p <==> exists i: nat :: Holds(ds, i, cfg, key))
            && (forall i: nat | Holds(ds, i, cfg, key) :: p[key] == ds[i].source.impl)
  {
    if ds != [] {
      var front, last := ds[..|ds| - 1], |ds| - 1;
      LoadLast(ds, cfg);
      if Writes(ds, last, cfg, key) {
        assert Holds(ds, last, cfg, key);
      } else {
        TableKeys(front, cfg, key);
        forall i: nat ensures Holds(ds, i, cfg, key) <==> Holds(front, i, cfg, key) { HolderStays(ds, cfg, key, i); }
      }
    }
  }

  lemma HolderStays(ds: seq<Description>, cfg: Setup, key: string, i: nat)
    requires ds != [] && !Writes(ds, |ds| - 1, cfg, key)
    ensures Holds(ds, i, cfg, key) <==> Holds(ds[..|ds| - 1], i, cfg, key)
  {
    var front := ds[..|ds| - 1];
    forall j: nat ensures Writes(ds, j, cfg, key) == Writes(front, j, cfg, key) {
      if j < |front| { SameWrites(ds, j, cfg, key); }
    }
  }

  // ---- Names that look like versions -------------------------------------------------------

  /** A version text, which semantic versions are, has no colon in it and is not empty. */
  predicate VersionText(v: string) { v != "" && ':' !in v }

  predicate ValidVersions(ds: seq<Description>) { forall i | 0 <= i < |ds| :: VersionText(ds[i].version) }

  /** No name equals the name and version of a description. */
  predicate Clear(ds: seq<Description>) { forall i, j | 0 <= i < |ds| && 0 <= j < |ds| :: ds[i].name != Index(ds[j]) }

  lemma IndexIsInjective(c: Description, d: Description)
    requires VersionText(c.version) && VersionText(d.version) && Index(c) == Index(d)
    ensures c.name == d.name && c.version == d.version
  {
    var key, n, m := Index(c), |c.name|, |d.name|;
    assert key[n] == ':' && key[m] == ':';
    assert key[n + 1..] == c.version && key[m + 1..] == d.version;
    assert key[..n] == c.name && key[..m] == d.name;
  }

  /** Without override a description that loads, and is not skipped, meets the second guard exactly
      when an earlier one became the default for a name that equals its own name and version. */
  lemma GuardMeetsCollisions(ds: seq<Description>, cfg: Setup, i: nat)
    requires ValidVersions(ds) && i < |ds| && !cfg.override && !Skipped(ds, i, cfg)
    ensures Guarded(ds, i, cfg)
       <==> exists j: nat :: j < i && Applied(ds, j, cfg) && !Overtaken(ds, j, cfg) && ds[j].name == Index(ds[i])
  {
    var front, key := ds[..i], Index(ds[i]);
    TableKeys(front, cfg, key);
    forall j: nat | j < i
      ensures Applied(front, j, cfg) == Applied(ds, j, cfg) && Overtaken(front, j, cfg) == Overtaken(ds, j, cfg)
    {
      SameOnLonger(ds, i, j, cfg);
    }
    if Guarded(ds, i, cfg) {
      var j: nat :| Holds(front, j, cfg, key);
      if key == Index(ds[j]) {
        IndexIsInjective(ds[i], ds[j]);
        assert Read(ds, j, ds[i].name) && Equal(cfg, ds[i].version, ds[j].version);
      }
    }
    if exists j: nat :: j < i && Applied(ds, j, cfg) && !Overtaken(ds, j, cfg) && ds[j].name == key {
      var j: nat :| j < i && Applied(ds, j, cfg) && !Overtaken(ds, j, cfg) && ds[j].name == key;
      LastWriter(front, cfg, key, j);
    }
  }

  lemma SameOnLonger(ds: seq<Description>, n: nat, j: nat, cfg: Setup)
    requires j < n <= |ds|
    ensures Applied(ds[..n], j, cfg) == Applied(ds, j, cfg) && Overtaken(ds[..n], j, cfg) == Overtaken(ds, j, cfg)
  {
    var front := ds[..n];
    assert forall h: nat | h < j :: Read(ds, h, ds[j].name) == Read(front, h, ds[j].name);
    assert forall h: nat | h < j :: ds[h] == front[h];
    assert ds[..j] == front[..j];
  }

  /** If something is written under a key, something is written last. */
  lemma {:induction false} LastWriter(ds: seq<Description>, cfg: Setup, key: string, i: nat)
    requires Writes(ds, i, cfg, key)
    ensures exists k: nat :: Holds(ds, k, cfg, key)
    decreases |ds| - i
  {
    if exists j: nat :: i < j < |ds| && Writes(ds, j, cfg, key) {
      var j: nat :| i < j < |ds| && Writes(ds, j, cfg, key);
      LastWriter(ds, cfg, key, j);
    } else {
      assert Holds(ds, i, cfg, key);
    }
  }

  // ---- Without such names --------------------------------------------------------------------

  predicate Loaded(ds: seq<Description>, i: nat, cfg: Setup) {
    i < |ds| && ds[i].source.Loads? && (cfg.override || !Skipped(ds, i, cfg))
  }

  predicate SetsDefault(ds: seq<Description>, i: nat, cfg: Setup) { Loaded(ds, i, cfg) && !Overtaken(ds, i, cfg) }

  /** The loader's second guard against overriding never applies. */
  lemma NotFiledTwice(ds: seq<Description>, cfg: Setup, i: nat)
    requires ValidVersions(ds) && Clear(ds)
    ensures Applied(ds, i, cfg) <==> Loaded(ds, i, cfg)
  {
    if Loaded(ds, i, cfg) && !cfg.override { GuardMeetsCollisions(ds, cfg, i); }
  }

  predicate SetsDefaultOf(ds: seq<Description>, i: nat, cfg: Setup, name: string) {
    SetsDefault(ds, i, cfg) && ds[i].name == name
  }

  predicate HoldsDefault(ds: seq<Description>, i: nat, cfg: Setup, name: string) {
    SetsDefaultOf(ds, i, cfg, name) && forall j: nat | i < j < |ds| :: !SetsDefaultOf(ds, j, cfg, name)
  }

  predicate LoadsVersion(ds: seq<Description>, i: nat, cfg: Setup, name: string, v: string) {
    Loaded(ds, i, cfg) && ds[i].name == name && ds[i].version == v
  }

  predicate HoldsVersion(ds: seq<Description>, i: nat, cfg: Setup, name: string, v: string) {
    LoadsVersion(ds, i, cfg, name, v) && forall j: nat | i < j < |ds| :: !LoadsVersion(ds, j, cfg, name, v)
  }

  predicate NotAnIndex(ds: seq<Description>, name: string) { forall i | 0 <= i < |ds| :: Index(ds[i]) != name }

  predicate NotAName(ds: seq<Description>, key: string) { forall i | 0 <= i < |ds| :: ds[i].name != key }

  /** The default of a name is the last loaded description that was not overtaken. */
  lemma DefaultKeys(ds: seq<Description>, cfg: Setup, name: string)
    requires ValidVersions(ds) && Clear(ds) && NotAnIndex(ds, name)
    ensures var p := LoadAll(ds, cfg).policies;
            && (name in p <==> exists i: nat :: HoldsDefault(ds, i, cfg, name))
            && (forall i: nat | HoldsDefault(ds, i, cfg, name) :: p[name] == ds[i].source.impl)
  {
    TableKeys(ds, cfg, name);
    forall i: nat ensures Writes(ds, i, cfg, name) <==> SetsDefaultOf(ds, i, cfg, name) { NotFiledTwice(ds, cfg, i); }
    forall i: nat ensures Holds(ds, i, cfg, name) <==> HoldsDefault(ds, i, cfg, name) {}
  }

  /** A versioned key holds the last loaded description of that version, which without override
      is the first one read of its precedence. */
  lemma VersionedKeys(ds: seq<Description>, cfg: Setup, name: string, v: string)
    requires ValidVersions(ds) && Clear(ds) && VersionText(v) && NotAName(ds, name + ":" + v)
    ensures var p, key := LoadAll(ds, cfg).policies, name + ":" + v;
            && (key in p <==> exists i: nat :: HoldsVersion(ds, i, cfg, name, v))
            && (forall i: nat | HoldsVersion(ds, i, cfg, name, v) :: p[key] == ds[i].source.impl)
  {
    var key := name + ":" + v;
    TableKeys(ds, cfg, key);
    forall i: nat ensures Writes(ds, i, cfg, key) <==> LoadsVersion(ds, i, cfg, name, v) {
      NotFiledTwice(ds, cfg, i);
      if i < |ds| && Index(ds[i]) == key { IndexIsInjective(ds[i], Description(name, v, "", Fails)); }
    }
    forall i: nat ensures Holds(ds, i, cfg, key) <==> HoldsVersion(ds, i, cfg, name, v) {}
  }

  // ---- The default version --------------------------------------------------------------

  predicate AllLoad(ds: seq<Description>) { forall i | 0 <= i < |ds| :: ds[i].source.Loads? }

  /** The greatest version of the name, ties going to the last description with override and to
      the first without. */
  predicate Greatest(ds: seq<Description>, i: nat, cfg: Setup, name: string) {
    && i < |ds| && ds[i].name == name
    && (forall j: nat | j < |ds| && ds[j].name == name :: !Older(cfg, ds[i].version, ds[j].version))
    && (forall j: nat | j < |ds| && (if cfg.override then i < j else j < i) && ds[j].name == name ::
          !Equal(cfg, ds[i].version, ds[j].version))
  }

  /** The first description of a name is not overtaken, so some description sets the default. */
  lemma {:induction false} SomeDefault(ds: seq<Description>, cfg: Setup, i: nat)
    requires AllLoad(ds) && i < |ds|
    ensures exists k: nat :: SetsDefaultOf(ds, k, cfg, ds[i].name)
  {
    if exists j: nat :: j < i && ds[j].name == ds[i].name {
      var j: nat :| j < i && ds[j].name == ds[i].name;
      SomeDefault(ds, cfg, j);
    } else {
      assert SetsDefaultOf(ds, i, cfg, ds[i].name);
    }
  }

  lemma {:induction false} SomeHolder(ds: seq<Description>, cfg: Setup, name: string, i: nat)
    requires SetsDefaultOf(ds, i, cfg, name)
    ensures exists k: nat :: HoldsDefault(ds, k, cfg, name)
    decreases |ds| - i
  {
    if exists j: nat :: i < j < |ds| && SetsDefaultOf(ds, j, cfg, name) {
      var j: nat :| i < j < |ds| && SetsDefaultOf(ds, j, cfg, name);
      SomeHolder(ds, cfg, name, j);
    } else {
      assert HoldsDefault(ds, i, cfg, name);
    }
  }

  lemma DefaultIsGreatest(ds: seq<Description>, cfg: Setup, name: string, i: nat)
    requires AllLoad(ds)
    ensures HoldsDefault(ds, i, cfg, name) ==> Greatest(ds, i, cfg, name)
  {
    if HoldsDefault(ds, i, cfg, name) {
      forall j: nat | j < |ds| && ds[j].name == name ensures !Older(cfg, ds[i].version, ds[j].version) {
        GreaterOvertakes(ds, cfg, i, j);
      }
      if cfg.override {
        forall j: nat | i < j < |ds| && ds[j].name == name ensures !Equal(cfg, ds[i].version, ds[j].version) {
          assert !SetsDefaultOf(ds, j, cfg, name);
        }
      } else {
        assert forall j: nat | j < i && ds[j].name == name :: Read(ds, j, name);
      }
    }
  }

  /** The description that holds the default has no greater version anywhere. */
  lemma {:induction false} GreaterOvertakes(ds: seq<Description>, cfg: Setup, i: nat, j: nat)
    requires AllLoad(ds) && i < |ds| && j < |ds| && HoldsDefault(ds, i, cfg, ds[i].name) && ds[j].name == ds[i].name
    ensures !Older(cfg, ds[i].version, ds[j].version)
    decreases j
  {
    assert Read(ds, j, ds[i].name);
    var v, w := cfg.parse(ds[i].version), cfg.parse(ds[j].version);
    VersionOrder(v, v, w);
    if j > i && Less(v, w) {
      assert !SetsDefaultOf(ds, j, cfg, ds[i].name);
      if Overtaken(ds, j, cfg) {
        var k: nat :| k < j && Read(ds, k, ds[j].name) && Older(cfg, ds[j].version, ds[k].version);
        GreaterOvertakes(ds, cfg, i, k);
        VersionOrder(v, w, cfg.parse(ds[k].version));
      } else {
        var k: nat :| k < j && Read(ds, k, ds[j].name) && Equal(cfg, ds[j].version, ds[k].version);
        GreaterOvertakes(ds, cfg, i, k);
      }
    }
  }

  /** When everything loads, each name maps to the implementation of its greatest version. */
  lemma GreatestVersionWins(ds: seq<Description>, cfg: Setup, name: string)
    requires AllLoad(ds) && ValidVersions(ds) && Clear(ds) && NotAnIndex(ds, name)
    ensures var p := LoadAll(ds, cfg).policies;
            && (name in p <==> exists i: nat :: i < |ds| && ds[i].name == name)
            && (name in p <==> exists i: nat :: Greatest(ds, i, cfg, name))
            && (forall i: nat | Greatest(ds, i, cfg, name) :: p[name] == ds[i].source.impl)
  {
    DefaultKeys(ds, cfg, name);
    if exists i: nat :: i < |ds| && ds[i].name == name {
      var i: nat :| i < |ds| && ds[i].name == name;
      SomeDefault(ds, cfg, i);
      var k: nat :| SetsDefaultOf(ds, k, cfg, name);
      SomeHolder(ds, cfg, name, k);
      var h: nat :| HoldsDefault(ds, h, cfg, name);
      DefaultIsGreatest(ds, cfg, name, h);
      forall g: nat | Greatest(ds, g, cfg, name) ensures g == h {
        VersionOrder(cfg.parse(ds[g].version), cfg.parse(ds[h].version), cfg.parse(ds[g].version));
        assert !Older(cfg, ds[g].version, ds[h].version) && !Older(cfg, ds[h].version, ds[g].version);
        assert Equal(cfg, ds[g].version, ds[h].version) && Equal(cfg, ds[h].version, ds[g].version);
      }
    }
  }

  /** Of the versions of this name none precedes description i's as the greater one, and among equal
      ones it is the last with override and the first without. */
  predicate HasGreatestVersion(ds: seq<Description>, i: nat, cfg: Setup, name: string) {
    && i < |ds| && ds[i].name == name
    && (forall j: nat | j < |ds| && ds[j].name == name ::
          !Precedes(cfg.parse(ds[i].version), cfg.parse(ds[j].version)))
    && (forall j: nat | j < |ds| && (if cfg.override then i < j else j < i) && ds[j].name == name ::
          cfg.parse(ds[i].version) != cfg.parse(ds[j].version))
  }

  lemma GreatestMeans(ds: seq<Description>, i: nat, cfg: Setup, name: string)
    ensures Greatest(ds, i, cfg, name) <==> HasGreatestVersion(ds, i, cfg, name)
  {
    if i < |ds| {
      forall j: nat | j < |ds|
        ensures Older(cfg, ds[i].version, ds[j].version)
                <==> Precedes(cfg.parse(ds[i].version), cfg.parse(ds[j].version))
      {
        LessMeansPrecedes(cfg.parse(ds[i].version), cfg.parse(ds[j].version));
      }
    }
  }

  /** In terms of the numbers and tags of versions: the default of a name is the version that no
      other version of the name follows in precedence. */
  lemma DefaultHasGreatestVersion(ds: seq<Description>, cfg: Setup, name: string)
    requires AllLoad(ds) && ValidVersions(ds) && Clear(ds) && NotAnIndex(ds, name)
    ensures var p := LoadAll(ds, cfg).policies;
            && ((exists i: nat :: i < |ds| && ds[i].name == name) <==> name in p)
            && (name in p <==> exists i: nat :: HasGreatestVersion(ds, i, cfg, name))
            && (forall i: nat | HasGreatestVersion(ds, i, cfg, name) :: p[name] == ds[i].source.impl)
  {
    GreatestVersionWins(ds, cfg, name);
    forall i: nat ensures Greatest(ds, i, cfg, name) <==> HasGreatestVersion(ds, i, cfg, name) {
      GreatestMeans(ds, i, cfg, name);
    }
  }

  /** Of two versions of a name the one that precedes is never the default, in either order. */
  lemma GreaterOfTwoWins(c: Description, d: Description, cfg: Setup)
    requires c.source.Loads? && d.source.Loads? && c.name == d.name && VersionText(c.version) && VersionText(d.version)
    requires Precedes(cfg.parse(c.version), cfg.parse(d.version))
    ensures var p, q := LoadAll([c, d], cfg).policies, LoadAll([d, c], cfg).policies;
            c.name in p && p[c.name] == d.source.impl && c.name in q && q[c.name] == d.source.impl
  {
    LongerThanName(c);
    LongerThanName(d);
    PrecedesIsStrict(cfg.parse(c.version), cfg.parse(d.version));
    PrecedesIsStrict(cfg.parse(d.version), cfg.parse(d.version));
    GreaterIsGreatest(c, d, cfg);
    DefaultHasGreatestVersion([c, d], cfg, c.name);
    DefaultHasGreatestVersion([d, c], cfg, c.name);
  }

  lemma PrecedesIsStrict(v: Version, w: Version)
    ensures Precedes(v, w) ==> !Precedes(w, v) && v != w
  {
    LessMeansPrecedes(v, w);
    LessMeansPrecedes(w, v);
    VersionOrder(v, w, v);
  }

  lemma GreaterIsGreatest(c: Description, d: Description, cfg: Setup)
    requires c.name == d.name && cfg.parse(c.version) != cfg.parse(d.version)
    requires !Precedes(cfg.parse(d.version), cfg.parse(c.version))
    requires !Precedes(cfg.parse(d.version), cfg.parse(d.version))
    ensures HasGreatestVersion([c, d], 1, cfg, c.name) && HasGreatestVersion([d, c], 0, cfg, c.name)
  {}

  lemma LongerThanName(d: Description)
    requires VersionText(d.version)
    ensures |Index(d)| > |d.name|
  {}

  predicate DistinctVersions(ds: seq<Description>, cfg: Setup) {
    forall i, j | 0 <= i < j < |ds| :: ds[i].name != ds[j].name || !Equal(cfg, ds[i].version, ds[j].version)
  }

  /** Distinct pairs of name and version make the table independent of the order of the list. */
  lemma OrderIsIrrelevant(a: seq<Description>, b: seq<Description>, cfg: Setup)
    requires AllLoad(a) && ValidVersions(a) && Clear(a) && multiset(a) == multiset(b)
    requires DistinctVersions(a, cfg) && DistinctVersions(b, cfg)
    ensures LoadAll(a, cfg).policies == LoadAll(b, cfg).policies
  {
    SameDescriptions(a, b);
    SubTable(a, b, cfg);
    SubTable(b, a, cfg);
  }

  lemma SameDescriptions(a: seq<Description>, b: seq<Description>)
    requires multiset(a) == multiset(b)
    ensures (forall k | 0 <= k < |a| :: a[k] in b) && (forall k | 0 <= k < |b| :: b[k] in a)
    ensures AllLoad(a) ==> AllLoad(b)
    ensures ValidVersions(a) ==> ValidVersions(b)
    ensures Clear(a) ==> Clear(b)
  {
    forall k | 0 <= k < |b| ensures b[k] in a { assert b[k] in multiset(a); }
    forall k | 0 <= k < |a| ensures a[k] in b { assert a[k] in multiset(b); }
  }

  lemma SubTable(a: seq<Description>, b: seq<Description>, cfg: Setup)
    requires AllLoad(a) && ValidVersions(a) && Clear(a) && AllLoad(b) && ValidVersions(b) && Clear(b)
    requires (forall k | 0 <= k < |a| :: a[k] in b) && (forall k | 0 <= k < |b| :: b[k] in a)
    requires DistinctVersions(a, cfg) && DistinctVersions(b, cfg)
    ensures var p, q := LoadAll(a, cfg).policies, LoadAll(b, cfg).policies;
            forall key <- p :: key in q && q[key] == p[key]
  {
    var p, q := LoadAll(a, cfg).policies, LoadAll(b, cfg).policies;
    forall key <- p ensures key in q && q[key] == p[key] {
      TableKeys(a, cfg, key);
      var i: nat :| Holds(a, i, cfg, key);
      if key == Index(a[i]) {
        var j: nat :| j < |b| && b[j] == a[i];
        VersionEntry(a, cfg, i);
        VersionEntry(b, cfg, j);
      } else {
        SameDefaultEntry(a, b, cfg, i);
      }
    }
  }

  lemma VersionEntry(ds: seq<Description>, cfg: Setup, i: nat)
    requires AllLoad(ds) && ValidVersions(ds) && Clear(ds) && DistinctVersions(ds, cfg) && i < |ds|
    ensures var p, key := LoadAll(ds, cfg).policies, Index(ds[i]);
            key in p && p[key] == ds[i].source.impl
  {
    var d := ds[i];
    VersionedKeys(ds, cfg, d.name, d.version);
    assert Equal(cfg, d.version, d.version);
    assert HoldsVersion(ds, i, cfg, d.name, d.version);
  }

  lemma SameDefaultEntry(a: seq<Description>, b: seq<Description>, cfg: Setup, i: nat)
    requires AllLoad(a) && ValidVersions(a) && Clear(a) && AllLoad(b) && ValidVersions(b) && Clear(b)
    requires (forall k | 0 <= k < |a| :: a[k] in b) && (forall k | 0 <= k < |b| :: b[k] in a)
    requires DistinctVersions(a, cfg) && DistinctVersions(b, cfg) && i < |a|
    ensures var p, q, key := LoadAll(a, cfg).policies, LoadAll(b, cfg).policies, a[i].name;
            key in p && key in q && q[key] == p[key]
  {
    var name := a[i].name;
    var m: nat :| m < |b| && b[m] == a[i];
    GreatestVersionWins(a, cfg, name);
    GreatestVersionWins(b, cfg, name);
    var g: nat :| Greatest(a, g, cfg, name);
    var j: nat :| j < |b| && b[j] == a[g];
    SameGreatest(a, b, cfg, name, g, j);
  }

  lemma SameGreatest(a: seq<Description>, b: seq<Description>, cfg: Setup, name: string, g: nat, j: nat)
    requires (forall k | 0 <= k < |b| :: b[k] in a) && DistinctVersions(b, cfg)
    requires Greatest(a, g, cfg, name) && j < |b| && b[j] == a[g]
    ensures Greatest(b, j, cfg, name)
  {
    forall k: nat | k < |b| && b[k].name == name ensures !Older(cfg, b[j].version, b[k].version) {
      assert b[k] in a;
    }
  }

  // ---- Descriptions that fail to load -----------------------------------------------------

  /** No loaded description of the name has a greater version. */
  predicate GreatestLoaded(ds: seq<Description>, i: nat, cfg: Setup) {
    && Loaded(ds, i, cfg)
    && forall j: nat | j < |ds| && Loaded(ds, j, cfg) && ds[j].name == ds[i].name ::
        !Older(cfg, ds[i].version, ds[j].version)
  }

  /** A version that fails to load stays on record, so the default is a greatest loaded version
      exactly when some description of that version was not preceded by a greater one. */
  lemma FailuresCanHideTheDefault(ds: seq<Description>, cfg: Setup, name: string)
    ensures (exists i: nat :: HoldsDefault(ds, i, cfg, name) && GreatestLoaded(ds, i, cfg))
      <==> (exists i: nat :: GreatestLoaded(ds, i, cfg) && ds[i].name == name && !Overtaken(ds, i, cfg))
  {
    if exists i: nat :: GreatestLoaded(ds, i, cfg) && ds[i].name == name && !Overtaken(ds, i, cfg) {
      var i: nat :| GreatestLoaded(ds, i, cfg) && ds[i].name == name && !Overtaken(ds, i, cfg);
      assert SetsDefaultOf(ds, i, cfg, name);
      LastDefault(ds, cfg, name, i);
    }
  }

  lemma {:induction false} LastDefault(ds: seq<Description>, cfg: Setup, name: string, i: nat)
    requires GreatestLoaded(ds, i, cfg) && SetsDefaultOf(ds, i, cfg, name)
    ensures exists k: nat :: HoldsDefault(ds, k, cfg, name) && GreatestLoaded(ds, k, cfg)
    decreases |ds| - i
  {
    if exists j: nat :: i < j < |ds| && SetsDefaultOf(ds, j, cfg, name) {
      var j: nat :| i < j < |ds| && SetsDefaultOf(ds, j, cfg, name);
      assert Read(ds, i, name);
      VersionOrder(cfg.parse(ds[i].version), cfg.parse(ds[j].version), cfg.parse(ds[i].version));
      assert !Older(cfg, ds[i].version, ds[j].version) && !Older(cfg, ds[j].version, ds[i].version);
      LastDefault(ds, cfg, name, j);
    } else {
      assert HoldsDefault(ds, i, cfg, name);
    }
  }

  /** A name is left without a default exactly when every loaded description of it was preceded by
      a greater version, which then failed to load. */
  lemma NamesWithoutDefault(ds: seq<Description>, cfg: Setup, name: string)
    requires ValidVersions(ds) && Clear(ds) && NotAnIndex(ds, name)
    ensures name !in LoadAll(ds, cfg).policies
      <==> forall i: nat | i < |ds| && Loaded(ds, i, cfg) && ds[i].name == name :: Overtaken(ds, i, cfg)
  {
    DefaultKeys(ds, cfg, name);
    if exists i: nat :: i < |ds| && Loaded(ds, i, cfg) && ds[i].name == name && !Overtaken(ds, i, cfg) {
      var i: nat :| i < |ds| && Loaded(ds, i, cfg) && ds[i].name == name && !Overtaken(ds, i, cfg);
      SomeHolder(ds, cfg, name, i);
    }
  }

  // ---- What is on record ------------------------------------------------------------------

  /** Description i can be read, and is not skipped as a version that was read before. */
  predicate Recorded(ds: seq<Description>, i: nat, cfg: Setup) {
    i < |ds| && !ds[i].source.Unreadable? && (cfg.override || !Skipped(ds, i, cfg))
  }

  function RecordedPaths(ds: seq<Description>, cfg: Setup, n: nat): seq<string>
    requires n <= |ds|
  {
    if n == 0 then []
    else RecordedPaths(ds, cfg, n - 1) + if Recorded(ds, n - 1, cfg) then [ds[n - 1].path] else []
  }

  lemma {:induction false} SameRecordedPaths(ds: seq<Description>, front: seq<Description>, cfg: Setup, n: nat)
    requires ds != [] && front == ds[..|ds| - 1] && n <= |front|
    ensures RecordedPaths(ds, cfg, n) == RecordedPaths(front, cfg, n)
  {
    if n > 0 {
      SameOnPrefix(ds, front, n - 1, cfg);
      SameRecordedPaths(ds, front, cfg, n - 1);
    }
  }

  /** For every list: the paths are those of the recorded descriptions, loaded or not, in order. */
  lemma {:induction false} PathsAreRecorded(ds: seq<Description>, cfg: Setup)
    ensures LoadAll(ds, cfg).paths == RecordedPaths(ds, cfg, |ds|)
  {
    if ds != [] {
      var front := ds[..|ds| - 1];
      PathsAreRecorded(front, cfg);
      SameRecordedPaths(ds, front, cfg, |front|);
      LastStatus(ds, cfg);
    }
  }

  // ---- Occurrences ------------------------------------------------------------------------

  lemma LoadTwo(c: Description, d: Description, cfg: Setup)
    ensures LoadAll([c], cfg) == Load(EMPTY, c, cfg)
    ensures LoadAll([c, d], cfg) == Load(Load(EMPTY, c, cfg), d, cfg)
  {
    assert [c][..0] == [] && [c, d][..1] == [c];
    assert LoadAll([c][..0], cfg) == EMPTY;
  }

  /** A single description is filed under its name, and under its name and version if it has one. */
  lemma SingleDescription(d: Description, cfg: Setup)
    ensures LoadAll([d], cfg).policies
         == if !d.source.Loads? then map[]
            else if d.version == "" then map[d.name := d.source.impl]
            else map[d.name + ":" + d.version := d.source.impl, d.name := d.source.impl]
  {
    LoadTwo(d, d, cfg);
  }

  /** A greater version that fails to load leaves the name without any default. */
  lemma FailedVersionLeavesNoDefault(cfg: Setup)
    requires Less(cfg.parse("1.0.0"), cfg.parse("2.0.0"))
    ensures var ds := [Description("cors", "2.0.0", "/a", Fails), Description("cors", "1.0.0", "/b", Loads("f"))];
            var p := LoadAll(ds, cfg).policies;
            "cors:1.0.0" in p && "cors" !in p
  {
    var c, d := Description("cors", "2.0.0", "/a", Fails), Description("cors", "1.0.0", "/b", Loads("f"));
    LoadTwo(c, d, cfg);
    var one := Load(EMPTY, c, cfg);
    assert Known(one, "cors")[0] == "2.0.0" && Known(one, "cors") == ["2.0.0"];
    VersionOrder(cfg.parse("1.0.0"), cfg.parse("2.0.0"), cfg.parse("1.0.0"));
    assert Older(cfg, "1.0.0", Known(one, "cors")[0]);
    assert Index(d) == "cors:1.0.0" && "cors:1.0.0" != "cors" by { assert |"cors:1.0.0"| != |"cors"|; }
  }

  /** Whenever one of two loading policies is named like the other's name and version, the table goes
      wrong: without override the other is left without a default; with override the order decides. */
  lemma CollisionsBreak(c: Description, d: Description, parse: string -> Version)
    requires c.source.Loads? && d.source.Loads? && c.name == Index(d)
    requires VersionText(c.version) && VersionText(d.version)
    ensures d.name !in LoadAll([c, d], Setup(parse, false)).policies
    ensures var p, q := LoadAll([c, d], Setup(parse, true)).policies, LoadAll([d, c], Setup(parse, true)).policies;
            c.name in p && p[c.name] == d.source.impl && c.name in q && q[c.name] == c.source.impl
  {
    assert Index(c) != c.name && c.name != d.name && Index(c) != d.name by {
      assert |Index(c)| > |c.name| > |d.name|;
    }
    LoadTwo(c, d, Setup(parse, false));
    LoadTwo(c, d, Setup(parse, true));
    LoadTwo(d, c, Setup(parse, true));
  }

  /** Two loading policies of different names both get their default, whatever the order and the
      option, exactly when neither is named like the other's name and version. */
  lemma PairsNeedClearNames(c: Description, d: Description, parse: string -> Version)
    requires c.source.Loads? && d.source.Loads? && c.name != d.name
    requires VersionText(c.version) && VersionText(d.version)
    ensures c.name != Index(d) && d.name != Index(c)
       <==> forall override: bool ::
              DefaultsOfBoth(c, d, Setup(parse, override)) && DefaultsOfBoth(d, c, Setup(parse, override))
  {
    if c.name == Index(d) {
      CollisionsBreak(c, d, parse);
      assert !DefaultsOfBoth(c, d, Setup(parse, false));
    } else if d.name == Index(c) {
      CollisionsBreak(d, c, parse);
      assert !DefaultsOfBoth(d, c, Setup(parse, false));
    } else {
      forall override: bool
        ensures DefaultsOfBoth(c, d, Setup(parse, override)) && DefaultsOfBoth(d, c, Setup(parse, override))
      {
        ClearPair(c, d, Setup(parse, override));
        ClearPair(d, c, Setup(parse, override));
      }
    }
  }

  predicate DefaultsOfBoth(c: Description, d: Description, cfg: Setup)
    requires c.source.Loads? && d.source.Loads?
  {
    var p := LoadAll([c, d], cfg).policies;
    c.name in p && p[c.name] == c.source.impl && d.name in p && p[d.name] == d.source.impl
  }

  lemma ClearPair(c: Description, d: Description, cfg: Setup)
    requires c.source.Loads? && d.source.Loads? && c.name != d.name && c.name != Index(d) && d.name != Index(c)
    requires VersionText(c.version) && VersionText(d.version)
    ensures DefaultsOfBoth(c, d, cfg)
  {
    LoadTwo(c, d, cfg);
    assert Index(c) != c.name && Index(d) != d.name by { assert |Index(c)| > |c.name| && |Index(d)| > |d.name|; }
    if Index(c) == Index(d) { IndexIsInjective(c, d); }
    assert Known(EMPTY, c.name) == [] && Known(Load(EMPTY, c, cfg), d.name) == [];
  }

  /** A policy named "a:1.0.0" keeps the policy "a" from getting a default. */
  lemma NameLikeAVersion(parse: string -> Version)
    ensures var c := Description("a:1.0.0", "2.0.0", "/a", Loads("f"));
            var d := Description("a", "1.0.0", "/b", Loads("g"));
            var p, q := LoadAll([c, d], Setup(parse, false)).policies, LoadAll([d, c], Setup(parse, false)).policies;
            "a" !in p && "a" in q && q["a"] == "g"
  {
    var c, d := Description("a:1.0.0", "2.0.0", "/a", Loads("f")), Description("a", "1.0.0", "/b", Loads("g"));
    assert Index(d) == c.name;
    CollisionsBreak(c, d, parse);
    LoadTwo(d, c, Setup(parse, false));
    assert |Index(c)| > |c.name| > |d.name|;
  }

  /** Pairs of version texts, the first of which precedes the second, for each way to differ. */
  const PAIRS: seq<(string, string)> := [
    ("1.9.9", "2.0.0"), ("1.1.9", "1.2.0"), ("1.0.1", "1.0.2"), ("1.0.0-rc", "1.0.0"),
    ("1.0.0-7", "1.0.0-rc"), ("1.0.0-7", "1.0.0-10"), ("1.0.0-beta", "1.0.0-rc"), ("1.0.0-rc", "1.0.0-rc.1")]

  /** What these texts mean. */
  const PARSED: seq<(Version, Version)> := [
    (Version(1, 9, 9, []), Version(2, 0, 0, [])), (Version(1, 1, 9, []), Version(1, 2, 0, [])),
    (Version(1, 0, 1, []), Version(1, 0, 2, [])), (Version(1, 0, 0, [Alpha("rc")]), Version(1, 0, 0, [])),
    (Version(1, 0, 0, [Numeric(7)]), Version(1, 0, 0, [Alpha("rc")])),
    (Version(1, 0, 0, [Numeric(7)]), Version(1, 0, 0, [Numeric(10)])),
    (Version(1, 0, 0, [Alpha("beta")]), Version(1, 0, 0, [Alpha("rc")])),
    (Version(1, 0, 0, [Alpha("rc")]), Version(1, 0, 0, [Alpha("rc"), Numeric(1)]))]

  lemma PairsPrecede(k: nat)
    requires k < |PAIRS|
    ensures Precedes(PARSED[k].0, PARSED[k].1)
  {
    LessMeansPrecedes(PARSED[k].0, PARSED[k].1);
    assert TextLess("beta", "rc");
  }

  /** In each of these pairs the greater version becomes the default, in either order. */
  lemma GreaterSamplesWin(cfg: Setup, k: nat)
    requires k < |PAIRS| && cfg.parse(PAIRS[k].0) == PARSED[k].0 && cfg.parse(PAIRS[k].1) == PARSED[k].1
    ensures var c := Description("cors", PAIRS[k].0, "/a", Loads("f"));
            var d := Description("cors", PAIRS[k].1, "/b", Loads("g"));
            var p, q := LoadAll([c, d], cfg).policies, LoadAll([d, c], cfg).policies;
            "cors" in p && p["cors"] == "g" && "cors" in q && q["cors"] == "g"
  {
    var c, d := Description("cors", PAIRS[k].0, "/a", Loads("f")), Description("cors", PAIRS[k].1, "/b", Loads("g"));
    PairsPrecede(k);
    GreaterOfTwoWins(c, d, cfg);
  }
}

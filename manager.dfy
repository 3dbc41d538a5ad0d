/**
 * The manager around the document: which file it uses, how a parsed file is
 * normalised on load, and where `save` puts the backup of the previous version.
 */
module Manager {
  import opened Options
  import opened Strings
  import opened Paths
  import opened Documents
  import opened Operations

  /**
   * The kubeconfig path: an explicit path wins; otherwise the first entry of a
   * non-empty KUBECONFIG; otherwise `<home>/.kube/config`.
   */
  function ResolvePath(kubeconfigPath: Option<string>, kubeconfigVar: Option<string>, home: string, pathSep: char): (p: string)
    ensures kubeconfigPath.Some? ==> p == kubeconfigPath.value
    ensures kubeconfigPath.None? && kubeconfigVar.Some? && kubeconfigVar.value != "" ==>
      p == FromString(FirstSegment(kubeconfigVar.value, pathSep))
    ensures kubeconfigPath.None? && (kubeconfigVar.None? || kubeconfigVar.value == "") ==>
      p == Join(Join(home, ".kube"), "config")
  {
    if kubeconfigPath.Some? then kubeconfigPath.value
    else if kubeconfigVar.Some? && kubeconfigVar.value != "" then FromString(SplitOn(kubeconfigVar.value, pathSep)[0])
    else Join(Join(home, ".kube"), "config")
  }

  /** The keys `_load` forces to hold lists. */
  const ListKeys: seq<string> := ["clusters", "users", "contexts"]

  function ListOrEmpty(raw: Mapping, key: string): RawValue {
    if key in raw && raw[key].Items? then raw[key] else Items([])
  }

  /** After loading, `key` holds a list: the one the file had, or an empty one in place of a missing or non-list value. */
  predicate ListKept(raw: Mapping, doc: Mapping, key: string) {
    key in doc && doc[key].Items? &&
    (key in raw && raw[key].Items? ==> doc[key] == raw[key]) &&
    (key !in raw || !raw[key].Items? ==> doc[key] == Items([]))
  }

  /** One pass of the loop of `_load`: `key` keeps the list it holds, or is set to an empty one. */
  function ForceList(m: Mapping, key: string): (r: Mapping)
    ensures r.Keys == m.Keys + {key}
    ensures r[key] == ListOrEmpty(m, key)
    ensures forall k :: k in m && k != key ==> r[k] == m[k]
  {
    if key !in m || !m[key].Items? then m[key := Items([])] else m
  }

  /** The defaults `_load` adds: `apiVersion` and `kind` are set only when absent. */
  function WithDefaults(m: Mapping): (r: Mapping)
    ensures r.Keys == m.Keys + {"apiVersion", "kind"}
    ensures forall k :: k in m ==> r[k] == m[k]
    ensures "apiVersion" !in m ==> r["apiVersion"] == Text("v1")
    ensures "kind" !in m ==> r["kind"] == Text("Config")
  {
    var m1 := if "apiVersion" !in m then m["apiVersion" := Text("v1")] else m;
    if "kind" !in m1 then m1["kind" := Text("Config")] else m1
  }

  /** The normal form `_load` gives a parsed document. */
  function Normalized(raw: Mapping): Mapping {
    WithDefaults(ForceList(ForceList(ForceList(raw, "clusters"), "users"), "contexts"))
  }

  /** After loading, each of the three list keys holds a list: the file's own, or an empty one. */
  lemma NormalizedLists(raw: Mapping)
    ensures ListKept(raw, Normalized(raw), "clusters")
    ensures ListKept(raw, Normalized(raw), "users")
    ensures ListKept(raw, Normalized(raw), "contexts")
  {
    var withClusters := ForceList(raw, "clusters");
    var withUsers := ForceList(withClusters, "users");
    var withContexts := ForceList(withUsers, "contexts");
    assert ListKept(raw, withClusters, "clusters");
    assert ListKept(raw, withUsers, "clusters") && ListKept(raw, withUsers, "users");
  }

  /** The three list steps add the three list keys and leave every other key as it was. */
  lemma ForcedShape(raw: Mapping)
    ensures var forced := ForceList(ForceList(ForceList(raw, "clusters"), "users"), "contexts");
      forced.Keys == raw.Keys + {"clusters", "users", "contexts"} &&
      forall k :: k in raw && k != "clusters" && k != "users" && k != "contexts" ==> forced[k] == raw[k]
  {
    var withClusters := ForceList(raw, "clusters");
    var withUsers := ForceList(withClusters, "users");
    assert withUsers.Keys == raw.Keys + {"clusters", "users"};
  }

  /**
   * Loading adds the three list keys and the two defaults, keeps every other key
   * as the file had it, and sets `apiVersion` and `kind` only when they are absent.
   */
  lemma NormalizedKeeps(raw: Mapping)
    ensures Normalized(raw).Keys == raw.Keys + {"clusters", "users", "contexts", "apiVersion", "kind"}
    ensures forall k :: k in raw && k != "clusters" && k != "users" && k != "contexts" ==> Normalized(raw)[k] == raw[k]
    ensures "apiVersion" !in raw ==> Normalized(raw)["apiVersion"] == Text("v1")
    ensures "kind" !in raw ==> Normalized(raw)["kind"] == Text("Config")
  {
    ForcedShape(raw);
  }

  /** The document after the first `n` keys of `ListKeys` have been forced to hold lists, one after the other. */
  function ForceLists(raw: Mapping, n: nat): Mapping
    requires n <= |ListKeys|
  {
    if n == 0 then raw else ForceList(ForceLists(raw, n - 1), ListKeys[n - 1])
  }

  /** The loop of `_load`: each list key in turn is forced to hold a list. */
  method ForceListKeys(raw: Mapping) returns (m: Mapping)
    ensures m == ForceList(ForceList(ForceList(raw, "clusters"), "users"), "contexts")
  {
    m := raw;
    for i := 0 to |ListKeys|
      invariant m == ForceLists(raw, i)
    {
      var key := ListKeys[i];
      if key !in m || !m[key].Items? {
        m := m[key := Items([])];
      }
    }
    ForceListsAll(raw);
  }

  /** Forcing all of `ListKeys` forces clusters, then users, then contexts. */
  lemma ForceListsAll(raw: Mapping)
    ensures ForceLists(raw, |ListKeys|) == ForceList(ForceList(ForceList(raw, "clusters"), "users"), "contexts")
  {
    assert ForceLists(raw, 1) == ForceList(raw, "clusters");
    assert ForceLists(raw, 2) == ForceList(ForceLists(raw, 1), "users");
  }

  /**
   * `_load`: a missing or empty file reads as an empty mapping; then each list
   * key is forced to hold a list and `apiVersion` and `kind` get defaults.
   */
  method Load(loaded: Option<Mapping>) returns (configData: Mapping)
    ensures configData == Normalized(if loaded.Some? then loaded.value else map[])
  {
    configData := if loaded.Some? then loaded.value else map[];
    configData := ForceListKeys(configData);
    if "apiVersion" !in configData {
      configData := configData["apiVersion" := Text("v1")];
    }
    if "kind" !in configData {
      configData := configData["kind" := Text("Config")];
    }
  }

  /** The value of `current-context` when it is a string. */
  function CurrentOf(doc: Mapping): Option<string> {
    if "current-context" in doc && doc["current-context"].Text? then Some(doc["current-context"].text) else None
  }

  predicate HasLists(doc: Mapping) {
    "clusters" in doc && doc["clusters"].Items? &&
    "users" in doc && doc["users"].Items? &&
    "contexts" in doc && doc["contexts"].Items?
  }

  /** The part of a normalised document the operations work on. */
  function ConfigOf(doc: Mapping): Config
    requires HasLists(doc)
  {
    Config(doc["clusters"].entries, doc["users"].entries, doc["contexts"].entries, CurrentOf(doc))
  }

  /** The top-level keys no operation touches. */
  function OthersOf(doc: Mapping): Mapping {
    doc - {"clusters", "users", "contexts", "current-context"}
  }

  /** Loading a document `export_contexts` produced gives back its lists and its current context. */
  lemma ExportReloads(e: Exported)
    ensures HasLists(Normalized(e.ToMapping()))
    ensures ConfigOf(Normalized(e.ToMapping())) == Config(e.clusters, e.users, e.contexts, Some(e.currentContext))
  {
    var raw := e.ToMapping();
    NormalizedLists(raw);
    NormalizedKeeps(raw);
    assert raw["clusters"] == Items(e.clusters);
    assert raw["users"] == Items(e.users);
    assert raw["contexts"] == Items(e.contexts);
    assert raw["current-context"] == Text(e.currentContext);
  }

  /** What `save` does before writing: no copy, a copy to the backup path, or the ValueError of an empty file name. */
  datatype Backup = NoBackup | CopyTo(target: string) | InvalidName

  /**
   * The backup decision of `save`: only an existing file is copied, and the
   * copy goes to the path with ".bak" appended to its suffix.
   */
  function PlanBackup(path: string, pathExists: bool): (b: Backup)
    ensures !pathExists ==> b == NoBackup
    ensures pathExists && Name(path) != "" ==> b == CopyTo(path + ".bak")
    ensures pathExists && Name(path) == "" ==> b == InvalidName
  {
    BackupPathAppendsBak(path);
    if !pathExists then NoBackup
    else
      match BackupPath(path)
      case Some(target) => CopyTo(target)
      case None => InvalidName
  }

  /** `KubeConfigManager`: the resolved path and the document loaded from it. */
  class KubeConfigManager {
    var path: string
    var config: KubeConfig

    /**
     * `__init__`: resolves the path, then loads and normalises `loaded`, the
     * parsed content of the file at that path (None when it is missing or empty).
     */
    constructor (kubeconfigPath: Option<string>, kubeconfigVar: Option<string>, home: string, pathSep: char,
                 loaded: Option<Mapping>)
      ensures path == ResolvePath(kubeconfigPath, kubeconfigVar, home, pathSep)
      ensures var doc := Normalized(if loaded.Some? then loaded.value else map[]);
        HasLists(doc) && fresh(config) && config.Value() == ConfigOf(doc) && config.others == OthersOf(doc)
    {
      path := ResolvePath(kubeconfigPath, kubeconfigVar, home, pathSep);
      var configData := Load(loaded);
      NormalizedLists(if loaded.Some? then loaded.value else map[]);
      config := new KubeConfig(ConfigOf(configData), OthersOf(configData));
    }
  }
}

/**
 * The kubeconfig document as already parsed from YAML: three ordered lists of
 * named entries, the current context, and the raw top-level mapping they come from.
 */
module Documents {
  import opened Options

  /** The `context` mapping of a context entry: the cluster and user it binds, and an optional namespace. */
  datatype ContextRef = ContextRef(cluster: string, user: string, namespace: Option<string>)

  /**
   * One item of `clusters`, `users` or `contexts`: a mapping whose `name` may be
   * missing, whose `context` mapping (for a context) names a cluster and a user,
   * and whose other keys are opaque here.
   */
  datatype Entry = Entry(name: Option<string>, context: Option<ContextRef>, details: string)

  /**
   * A top-level value of a parsed document: a list of entries, a string, or any
   * other value (null, a number, a boolean, a mapping).
   */
  datatype RawValue = Items(entries: seq<Entry>) | Text(text: string) | Other

  /** A parsed document or bundle: its top-level mapping. */
  type Mapping = map<string, RawValue>

  /** The three kinds of entry, in the order `add_context` processes them. */
  datatype Kind = ClusterKind | UserKind | ContextKind

  const Kinds: seq<Kind> := [ClusterKind, UserKind, ContextKind]

  /** The item type shown in the override prompt. */
  function KindName(k: Kind): string {
    match k
    case ClusterKind => "cluster"
    case UserKind => "user"
    case ContextKind => "context"
  }

  /** The part of the document the operations read and change. */
  datatype Config = Config(clusters: seq<Entry>, users: seq<Entry>, contexts: seq<Entry>, current: Option<string>) {

    function Get(k: Kind): seq<Entry> {
      match k
      case ClusterKind => clusters
      case UserKind => users
      case ContextKind => contexts
    }

    function Set(k: Kind, s: seq<Entry>): Config {
      match k
      case ClusterKind => this.(clusters := s)
      case UserKind => this.(users := s)
      case ContextKind => this.(contexts := s)
    }
  }

  /** Some entry of `s` is named `name`. */
  predicate Declares(s: seq<Entry>, name: string) {
    exists i :: 0 <= i < |s| && s[i].name == Some(name)
  }

  /** How many entries of `s` are named `name`. */
  function CountNamed(s: seq<Entry>, name: string): nat {
    if s == [] then 0 else (if s[0].name == Some(name) then 1 else 0) + CountNamed(s[1..], name)
  }

  /** No two entries of `s` share a name. */
  predicate UniqueNames(s: seq<Entry>) {
    forall i, j :: 0 <= i < j < |s| && s[i].name.Some? ==> s[i].name != s[j].name
  }

  /** Every entry of `s` has a `name`. */
  predicate AllNamed(s: seq<Entry>) {
    forall i :: 0 <= i < |s| ==> s[i].name.Some?
  }

  /** Every context of `s` has `context.cluster` and `context.user`. */
  predicate AllLinked(s: seq<Entry>) {
    forall i :: 0 <= i < |s| ==> s[i].context.Some?
  }

  /** Referential integrity: every context names a cluster and a user that the document declares. */
  predicate Integral(c: Config) {
    forall i :: 0 <= i < |c.contexts| ==>
      c.contexts[i].context.Some? &&
      Declares(c.clusters, c.contexts[i].context.value.cluster) &&
      Declares(c.users, c.contexts[i].context.value.user)
  }

  /** The current context, when set, names a context of the document. */
  predicate CurrentValid(c: Config) {
    c.current.Some? ==> Declares(c.contexts, c.current.value)
  }
}

/**
 * The three operations on the in-memory kubeconfig: merging a bundle
 * (`add_context`), deleting a context with its cascade (`delete_context`) and
 * assembling a standalone document from some contexts (`export_contexts`).
 */
module Operations {
  import opened Options
  import opened Documents
  import opened Utils

  /** The interactive prompt: the response typed when asked about (item type, name). */
  type Responder = (string, string) -> string

  /** Whether the user confirms overriding the existing entry of kind `k` named `name`. */
  function Confirms(respond: Responder, k: Kind, name: string): bool {
    PromptForOverride(respond, KindName(k), name)
  }

  // ---------------------------------------------------------------- add_context

  /** The first cluster, user and context of a bundle. */
  datatype Bundle = Bundle(cluster: Entry, user: Entry, context: Entry) {

    function Item(k: Kind): Entry {
      match k
      case ClusterKind => cluster
      case UserKind => user
      case ContextKind => context
    }

    predicate Named() {
      cluster.name.Some? && user.name.Some? && context.name.Some?
    }
  }

  /** `v[0]` succeeds: `v` is a non-empty list or a non-empty string. */
  predicate Indexable(v: RawValue) {
    (v.Items? && v.entries != []) || (v.Text? && v.text != [])
  }

  /** The three lookups `data[key][0]` at the start of `add_context` raise nothing. */
  predicate Extractable(data: Mapping) {
    "clusters" in data && Indexable(data["clusters"]) &&
    "users" in data && Indexable(data["users"]) &&
    "contexts" in data && Indexable(data["contexts"])
  }

  predicate FirstNamed(v: RawValue) {
    v.Items? && v.entries != [] && v.entries[0].name.Some?
  }

  /**
   * What `add_context` relies on without checking: once the three first items
   * are taken, each is an entry with a `name` (otherwise `new_item['name']`
   * raises an exception nobody catches).
   */
  predicate ItemsNamed(data: Mapping) {
    Extractable(data) ==> FirstNamed(data["clusters"]) && FirstNamed(data["users"]) && FirstNamed(data["contexts"])
  }

  /** The `try` block of `add_context`: None when the bundle is malformed. */
  function ExtractBundle(data: Mapping): (b: Option<Bundle>)
    requires ItemsNamed(data)
    ensures b.Some? <==> Extractable(data)
    ensures b.Some? ==> b.value.Named()
    ensures b.Some? ==> b.value == Bundle(data["clusters"].entries[0], data["users"].entries[0], data["contexts"].entries[0])
  {
    if Extractable(data) then
      Some(Bundle(data["clusters"].entries[0], data["users"].entries[0], data["contexts"].entries[0]))
    else None
  }

  /**
   * One pass of the loop of `add_context` over one list: a new name is appended,
   * an existing one is replaced in place once confirmed; None when the override
   * is declined.
   */
  function Merge(list: seq<Entry>, k: Kind, item: Entry, respond: Responder): (r: Option<seq<Entry>>)
    requires item.name.Some?
    ensures r.None? <==> Declares(list, item.name.value) && !Confirms(respond, k, item.name.value)
    ensures r.Some? ==> |r.value| == if Declares(list, item.name.value) then |list| else |list| + 1
    ensures r.Some? ==>
      IndexOfName(r.value, item.name.value) == if Declares(list, item.name.value) then IndexOfName(list, item.name.value) else |list|
    ensures r.Some? ==> r.value[IndexOfName(r.value, item.name.value)] == item
    ensures r.Some? ==> forall j :: 0 <= j < |list| && j != IndexOfName(list, item.name.value) ==> r.value[j] == list[j]
  {
    var name := item.name.value;
    var i := IndexOfName(list, name);
    if i < 0 then
      var s := list + [item];
      IndexOfNameIs(s, name, |list|);
      Some(s)
    else if Confirms(respond, k, name) then
      var s := list[i := item];
      IndexOfNameIs(s, name, i);
      Some(s)
    else None
  }

  datatype AddOutcome = AddOutcome(ok: bool, config: Config)

  /** The state after the first `n` kinds of the bundle have been processed, in the order cluster, user, context. */
  function AddKinds(c: Config, b: Bundle, respond: Responder, n: nat): AddOutcome
    requires n <= 3 && b.Named()
  {
    if n == 0 then AddOutcome(true, c)
    else
      var prev := AddKinds(c, b, respond, n - 1);
      if !prev.ok then prev
      else
        var k := Kinds[n - 1];
        match Merge(prev.config.Get(k), k, b.Item(k), respond)
        case None => AddOutcome(false, prev.config)
        case Some(s) => AddOutcome(true, prev.config.Set(k, s))
  }

  /** What `add_context` returns and what it leaves in the document. */
  function AddContextSpec(c: Config, data: Mapping, respond: Responder): AddOutcome
    requires ItemsNamed(data)
  {
    match ExtractBundle(data)
    case None => AddOutcome(false, c)
    case Some(b) => AddKinds(c, b, respond, 3)
  }

  /** Once a kind is declined, later kinds are not processed. */
  lemma {:induction false} AbortIsFinal(c: Config, b: Bundle, respond: Responder, n: nat, m: nat)
    requires n <= m <= 3 && b.Named()
    requires !AddKinds(c, b, respond, n).ok
    ensures AddKinds(c, b, respond, m) == AddKinds(c, b, respond, n)
  {
    if m > n {
      AbortIsFinal(c, b, respond, n, m - 1);
    }
  }

  /**
   * `add_context` kind by kind: a malformed bundle changes nothing; a declined
   * override stops the operation with the lists of that kind and of later kinds
   * untouched, while the writes already made to earlier kinds stay (no rollback);
   * otherwise all three lists are merged. The current context never changes.
   */
  lemma AddContextStages(c: Config, data: Mapping, respond: Responder)
    requires ItemsNamed(data)
    ensures !Extractable(data) ==> AddContextSpec(c, data, respond) == AddOutcome(false, c)
    ensures Extractable(data) ==>
      var b := ExtractBundle(data).value;
      var mc := Merge(c.clusters, ClusterKind, b.cluster, respond);
      var mu := Merge(c.users, UserKind, b.user, respond);
      var mx := Merge(c.contexts, ContextKind, b.context, respond);
      AddContextSpec(c, data, respond) ==
        if mc.None? then AddOutcome(false, c)
        else if mu.None? then AddOutcome(false, c.(clusters := mc.value))
        else if mx.None? then AddOutcome(false, c.(clusters := mc.value, users := mu.value))
        else AddOutcome(true, c.(clusters := mc.value, users := mu.value, contexts := mx.value))
  {
    if Extractable(data) {
      var b := ExtractBundle(data).value;
      var mc := Merge(c.clusters, ClusterKind, b.cluster, respond);
      var mu := Merge(c.users, UserKind, b.user, respond);
      var mx := Merge(c.contexts, ContextKind, b.context, respond);
      var a1 := AddKinds(c, b, respond, 1);
      assert a1 == if mc.None? then AddOutcome(false, c) else AddOutcome(true, c.(clusters := mc.value)) by {
        assert AddKinds(c, b, respond, 0) == AddOutcome(true, c);
      }
      var a2 := AddKinds(c, b, respond, 2);
      if a1.ok {
        assert a1.config.Get(UserKind) == c.users;
        assert a2 == if mu.None? then AddOutcome(false, a1.config) else AddOutcome(true, a1.config.(users := mu.value));
        if a2.ok {
          assert a2.config.Get(ContextKind) == c.contexts;
          assert AddKinds(c, b, respond, 3) == if mx.None? then AddOutcome(false, a2.config) else AddOutcome(true, a2.config.(contexts := mx.value));
        } else {
          AbortIsFinal(c, b, respond, 2, 3);
        }
      } else {
        AbortIsFinal(c, b, respond, 1, 3);
      }
    }
  }

  /** With every override confirmed, merging an entry a second time changes nothing. */
  lemma MergeIdempotent(list: seq<Entry>, k: Kind, item: Entry, respond: Responder)
    requires item.name.Some?
    requires Confirms(respond, k, item.name.value)
    ensures Merge(list, k, item, respond).Some?
    ensures var once := Merge(list, k, item, respond).value; Merge(once, k, item, respond) == Some(once)
  {
    var once := Merge(list, k, item, respond).value;
    var i := IndexOfName(once, item.name.value);
    assert once[i].name == item.name;
    assert once[i := item] == once;
  }

  /**
   * Adding the same bundle twice, every override confirmed, leaves the same
   * lists as adding it once: each entry stays where the first call put it.
   */
  lemma AddContextIdempotent(c: Config, data: Mapping, respond: Responder)
    requires ItemsNamed(data)
    requires forall itemType, name :: IsAffirmative(respond(itemType, name))
    ensures var once := AddContextSpec(c, data, respond);
      AddContextSpec(once.config, data, respond) == once
  {
    AddContextStages(c, data, respond);
    if Extractable(data) {
      var b := ExtractBundle(data).value;
      MergeIdempotent(c.clusters, ClusterKind, b.cluster, respond);
      MergeIdempotent(c.users, UserKind, b.user, respond);
      MergeIdempotent(c.contexts, ContextKind, b.context, respond);
      var once := AddContextSpec(c, data, respond);
      AddContextStages(once.config, data, respond);
    }
  }

  /** Merging never introduces a second entry with the same name. */
  lemma MergeKeepsNamesUnique(list: seq<Entry>, k: Kind, item: Entry, respond: Responder)
    requires item.name.Some? && UniqueNames(list)
    ensures var r := Merge(list, k, item, respond); r.Some? ==> UniqueNames(r.value)
  {
    var r := Merge(list, k, item, respond);
    if r.Some? {
      var s := r.value;
      var i := IndexOfName(list, item.name.value);
      forall a, b | 0 <= a < b < |s| && s[a].name.Some?
        ensures s[a].name != s[b].name
      {
        if i < 0 {
          assert s == list + [item];
          if b == |list| {
            assert list[a].name == s[a].name;
          }
        } else {
          assert s == list[i := item];
          if a == i {
            assert list[a].name == s[a].name;
          } else if b == i {
            assert list[b].name == s[b].name;
          }
        }
      }
    }
  }

  /** A document whose lists have unique names keeps them unique through `add_context`. */
  lemma AddContextKeepsNamesUnique(c: Config, data: Mapping, respond: Responder)
    requires ItemsNamed(data)
    requires UniqueNames(c.clusters) && UniqueNames(c.users) && UniqueNames(c.contexts)
    ensures var out := AddContextSpec(c, data, respond).config;
      UniqueNames(out.clusters) && UniqueNames(out.users) && UniqueNames(out.contexts)
  {
    AddContextStages(c, data, respond);
    if Extractable(data) {
      var b := ExtractBundle(data).value;
      MergeKeepsNamesUnique(c.clusters, ClusterKind, b.cluster, respond);
      MergeKeepsNamesUnique(c.users, UserKind, b.user, respond);
      MergeKeepsNamesUnique(c.contexts, ContextKind, b.context, respond);
    }
  }

  // ------------------------------------------------------------- delete_context

  /** `list.pop(i)`, the value dropped. */
  function RemoveAt(s: seq<Entry>, i: nat): seq<Entry>
    requires i < |s|
  {
    s[..i] + s[i + 1..]
  }

  /** `find_item_by_name` followed by `pop` of the index when it is not -1. */
  function RemoveFirstNamed(s: seq<Entry>, name: string): seq<Entry> {
    var i := IndexOfName(s, name);
    if i < 0 then s else RemoveAt(s, i)
  }

  /** The cascade on one list: unless `used`, the first entry named `name` goes. */
  function Pruned(items: seq<Entry>, name: string, used: bool): seq<Entry> {
    if used then items else RemoveFirstNamed(items, name)
  }

  /** Some context of `contexts` binds the cluster `name`. */
  predicate UsesCluster(contexts: seq<Entry>, name: string) {
    exists i :: 0 <= i < |contexts| && contexts[i].context.Some? && contexts[i].context.value.cluster == name
  }

  /** Some context of `contexts` binds the user `name`. */
  predicate UsesUser(contexts: seq<Entry>, name: string) {
    exists i :: 0 <= i < |contexts| && contexts[i].context.Some? && contexts[i].context.value.user == name
  }

  /**
   * What `delete_context` relies on without checking: when the context exists,
   * every context has `context.cluster` and `context.user`.
   */
  predicate Deletable(contexts: seq<Entry>, name: string) {
    Declares(contexts, name) ==> AllLinked(contexts)
  }

  datatype DeleteOutcome = DeleteOutcome(ok: bool, config: Config)

  /** What `delete_context` returns and what it leaves in the document. */
  function DeleteContextSpec(c: Config, name: string): DeleteOutcome
    requires Deletable(c.contexts, name)
  {
    var i := IndexOfName(c.contexts, name);
    if i < 0 then DeleteOutcome(false, c)
    else
      var ref := c.contexts[i].context.value;
      var rest := RemoveAt(c.contexts, i);
      var clusters := Pruned(c.clusters, ref.cluster, UsesCluster(rest, ref.cluster));
      var users := Pruned(c.users, ref.user, UsesUser(rest, ref.user));
      var current := if c.current == Some(name) then None else c.current;
      DeleteOutcome(true, Config(clusters, users, rest, current))
  }

  /** The outcome of `delete_context` once the context is found at index `i`. */
  lemma DeleteContextSpecAt(c: Config, name: string, i: int)
    requires Deletable(c.contexts, name) && 0 <= i && i == IndexOfName(c.contexts, name)
    ensures var ref := c.contexts[i].context.value;
      var rest := RemoveAt(c.contexts, i);
      DeleteContextSpec(c, name) == DeleteOutcome(true, Config(
        Pruned(c.clusters, ref.cluster, UsesCluster(rest, ref.cluster)),
        Pruned(c.users, ref.user, UsesUser(rest, ref.user)),
        rest, if c.current == Some(name) then None else c.current))
  {
  }

  lemma {:induction false} CountConcat(a: seq<Entry>, b: seq<Entry>, name: string)
    ensures CountNamed(a + b, name) == CountNamed(a, name) + CountNamed(b, name)
  {
    if a != [] {
      assert (a + b)[1..] == a[1..] + b;
      CountConcat(a[1..], b, name);
    } else {
      assert a + b == b;
    }
  }

  lemma CountRemoveAt(s: seq<Entry>, i: nat, name: string)
    requires i < |s|
    ensures CountNamed(RemoveAt(s, i), name) == CountNamed(s, name) - (if s[i].name == Some(name) then 1 else 0)
  {
    assert s == s[..i] + ([s[i]] + s[i + 1..]);
    CountConcat(s[..i], [s[i]] + s[i + 1..], name);
    CountConcat([s[i]], s[i + 1..], name);
    CountConcat(s[..i], s[i + 1..], name);
  }

  lemma {:induction false} CountZeroIffUndeclared(s: seq<Entry>, name: string)
    ensures CountNamed(s, name) == 0 <==> !Declares(s, name)
  {
    if s != [] {
      CountZeroIffUndeclared(s[1..], name);
      if Declares(s[1..], name) {
        var j :| 0 <= j < |s[1..]| && s[1..][j].name == Some(name);
        assert s[j + 1].name == Some(name);
      }
      if Declares(s, name) && s[0].name != Some(name) {
        var j :| 0 <= j < |s| && s[j].name == Some(name);
        assert s[1..][j - 1].name == Some(name);
      }
    }
  }

  lemma {:induction false} UniqueCountAtMostOne(s: seq<Entry>, name: string)
    requires UniqueNames(s)
    ensures CountNamed(s, name) <= 1
  {
    if s != [] {
      assert UniqueNames(s[1..]) by {
        forall a, b | 0 <= a < b < |s[1..]| && s[1..][a].name.Some?
          ensures s[1..][a].name != s[1..][b].name
        {
          assert s[1..][a] == s[a + 1] && s[1..][b] == s[b + 1];
        }
      }
      UniqueCountAtMostOne(s[1..], name);
      if s[0].name == Some(name) {
        CountZeroIffUndeclared(s[1..], name);
      }
    }
  }

  /**
   * `delete_context` succeeds exactly when a context of that name exists and
   * then removes the first such context only: the others keep their order, one
   * fewer context carries that name and every other name is counted as before.
   * On failure nothing changes.
   */
  lemma DeleteContextRemovesOne(c: Config, name: string)
    requires Deletable(c.contexts, name)
    ensures var out := DeleteContextSpec(c, name);
      (out.ok <==> Declares(c.contexts, name)) &&
      (!out.ok ==> out.config == c)
    ensures Declares(c.contexts, name) ==>
      var out := DeleteContextSpec(c, name).config;
      var i := IndexOfName(c.contexts, name);
      |out.contexts| == |c.contexts| - 1 &&
      (forall j :: 0 <= j < i ==> out.contexts[j] == c.contexts[j]) &&
      (forall j :: i <= j < |out.contexts| ==> out.contexts[j] == c.contexts[j + 1]) &&
      CountNamed(out.contexts, name) == CountNamed(c.contexts, name) - 1 &&
      forall other :: other != name ==> CountNamed(out.contexts, other) == CountNamed(c.contexts, other)
  {
    if Declares(c.contexts, name) {
      var i := IndexOfName(c.contexts, name);
      DeleteContextSpecAt(c, name, i);
      var rest := RemoveAt(c.contexts, i);
      assert DeleteContextSpec(c, name).config.contexts == rest;
      RemoveAtShifts(c.contexts, i);
      forall other {
        CountRemoveAt(c.contexts, i, other);
      }
    }
  }

  lemma RemoveAtShifts(s: seq<Entry>, i: nat)
    requires i < |s|
    ensures |RemoveAt(s, i)| == |s| - 1
    ensures forall j :: 0 <= j < i ==> RemoveAt(s, i)[j] == s[j]
    ensures forall j :: i <= j < |s| - 1 ==> RemoveAt(s, i)[j] == s[j + 1]
  {
  }

  /** With unique context names, the deleted name can no longer be found. */
  lemma DeletedContextIsGone(c: Config, name: string)
    requires Deletable(c.contexts, name) && UniqueNames(c.contexts)
    ensures IndexOfName(DeleteContextSpec(c, name).config.contexts, name) == -1
  {
    var out := DeleteContextSpec(c, name).config;
    DeleteContextRemovesOne(c, name);
    UniqueCountAtMostOne(c.contexts, name);
    if Declares(c.contexts, name) {
      CountZeroIffUndeclared(out.contexts, name);
    }
  }

  /**
   * The cascade: the cluster of the deleted context is removed exactly when the
   * document declares it and no REMAINING context binds it, and then only its
   * first entry goes; the same rule holds for the user.
   */
  lemma DeleteCascadeRule(c: Config, name: string)
    requires Deletable(c.contexts, name) && Declares(c.contexts, name)
    ensures var out := DeleteContextSpec(c, name).config;
      var ref := c.contexts[IndexOfName(c.contexts, name)].context.value;
      (out.clusters != c.clusters <==> Declares(c.clusters, ref.cluster) && !UsesCluster(out.contexts, ref.cluster)) &&
      (out.clusters != c.clusters ==> out.clusters == RemoveAt(c.clusters, IndexOfName(c.clusters, ref.cluster))) &&
      (out.users != c.users <==> Declares(c.users, ref.user) && !UsesUser(out.contexts, ref.user)) &&
      (out.users != c.users ==> out.users == RemoveAt(c.users, IndexOfName(c.users, ref.user)))
  {
    var out := DeleteContextSpec(c, name).config;
    var ref := c.contexts[IndexOfName(c.contexts, name)].context.value;
    if Declares(c.clusters, ref.cluster) && !UsesCluster(out.contexts, ref.cluster) {
      assert |out.clusters| == |c.clusters| - 1;
    }
    if Declares(c.users, ref.user) && !UsesUser(out.contexts, ref.user) {
      assert |out.users| == |c.users| - 1;
    }
  }

  /** The current context is cleared exactly when it names the deleted context. */
  lemma DeleteCurrentContextRule(c: Config, name: string)
    requires Deletable(c.contexts, name) && Declares(c.contexts, name)
    ensures var out := DeleteContextSpec(c, name).config;
      (c.current == Some(name) ==> out.current == None) &&
      (c.current != Some(name) ==> out.current == c.current)
  {
  }

  lemma RemoveAtKeepsName(s: seq<Entry>, k: nat, n: string)
    requires k < |s| && Declares(s, n) && s[k].name != Some(n)
    ensures Declares(RemoveAt(s, k), n)
  {
    var m :| 0 <= m < |s| && s[m].name == Some(n);
    var r := RemoveAt(s, k);
    if m < k {
      assert r[m] == s[m];
    } else {
      assert r[m - 1] == s[m];
    }
  }

  lemma RemoveFirstNamedKeeps(s: seq<Entry>, removed: string, n: string)
    requires n != removed && Declares(s, n)
    ensures Declares(RemoveFirstNamed(s, removed), n)
  {
    var k := IndexOfName(s, removed);
    if k >= 0 {
      RemoveAtKeepsName(s, k, n);
    }
  }

  /**
   * The cascade never breaks referential integrity: if every context named a
   * declared cluster and user before, every remaining context still does.
   */
  lemma DeletePreservesIntegrity(c: Config, name: string)
    requires Deletable(c.contexts, name) && Integral(c)
    ensures Integral(DeleteContextSpec(c, name).config)
  {
    var i := IndexOfName(c.contexts, name);
    if i >= 0 {
      var out := DeleteContextSpec(c, name).config;
      var ref := c.contexts[i].context.value;
      forall j | 0 <= j < |out.contexts|
        ensures out.contexts[j].context.Some?
        ensures Declares(out.clusters, out.contexts[j].context.value.cluster)
        ensures Declares(out.users, out.contexts[j].context.value.user)
      {
        var x := out.contexts[j];
        assert x == c.contexts[if j < i then j else j + 1];
        assert x.context.Some?;
        var xr := x.context.value;
        if !UsesCluster(out.contexts, ref.cluster) {
          assert xr.cluster != ref.cluster;
          RemoveFirstNamedKeeps(c.clusters, ref.cluster, xr.cluster);
        }
        if !UsesUser(out.contexts, ref.user) {
          assert xr.user != ref.user;
          RemoveFirstNamedKeeps(c.users, ref.user, xr.user);
        }
      }
    }
  }

  /** A current context that named an existing context still does after `delete_context`, or is cleared. */
  lemma DeletePreservesCurrentValid(c: Config, name: string)
    requires Deletable(c.contexts, name) && CurrentValid(c)
    ensures CurrentValid(DeleteContextSpec(c, name).config)
  {
    var i := IndexOfName(c.contexts, name);
    if i >= 0 && c.current.Some? && c.current.value != name {
      RemoveAtKeepsName(c.contexts, i, c.current.value);
    }
  }

  /** Deleting the only context of a one-of-each document empties all three lists and clears the current context. */
  lemma DeleteOnlyContextEmptiesDocument()
    ensures var c := Config([Entry(Some("c1"), None, "")], [Entry(Some("u1"), None, "")],
                            [Entry(Some("ctx1"), Some(ContextRef("c1", "u1", None)), "")], Some("ctx1"));
      Deletable(c.contexts, "ctx1") &&
      DeleteContextSpec(c, "ctx1") == DeleteOutcome(true, Config([], [], [], None))
  {
    var c := Config([Entry(Some("c1"), None, "")], [Entry(Some("u1"), None, "")],
                    [Entry(Some("ctx1"), Some(ContextRef("c1", "u1", None)), "")], Some("ctx1"));
    assert c.contexts[0].name == Some("ctx1");
    assert c.clusters[0].name == Some("c1");
    assert c.users[0].name == Some("u1");
  }

  // ------------------------------------------------------------ export_contexts

  /** The contexts that the requested names resolve to, in request order, one per occurrence. */
  function ResolveContexts(contexts: seq<Entry>, names: seq<string>): (found: seq<Entry>)
    ensures |found| <= |names|
    ensures forall k :: 0 <= k < |found| ==>
      found[k].name.Some? && found[k].name.value in names &&
      0 <= IndexOfName(contexts, found[k].name.value) &&
      found[k] == contexts[IndexOfName(contexts, found[k].name.value)]
    ensures found == [] <==> forall n :: n in names ==> !Declares(contexts, n)
  {
    if names == [] then []
    else
      var i := IndexOfName(contexts, names[0]);
      var rest := ResolveContexts(contexts, names[1..]);
      assert forall n :: n in names[1..] ==> n in names;
      assert forall n :: n in names ==> n == names[0] || n in names[1..];
      (if i >= 0 then [contexts[i]] else []) + rest
  }

  /** Resolving is done name by name: the result for a concatenation is the concatenation of the results. */
  lemma {:induction false} ResolveContextsConcat(contexts: seq<Entry>, a: seq<string>, b: seq<string>)
    ensures ResolveContexts(contexts, a + b) == ResolveContexts(contexts, a) + ResolveContexts(contexts, b)
  {
    if a != [] {
      var ab := a + b;
      assert ab[0] == a[0] && ab[1..] == a[1..] + b;
      var i := IndexOfName(contexts, a[0]);
      var head := if i >= 0 then [contexts[i]] else [];
      assert ResolveContexts(contexts, ab) == head + ResolveContexts(contexts, a[1..] + b);
      assert ResolveContexts(contexts, a) == head + ResolveContexts(contexts, a[1..]);
      ResolveContextsConcat(contexts, a[1..], b);
      assert head + (ResolveContexts(contexts, a[1..]) + ResolveContexts(contexts, b))
          == (head + ResolveContexts(contexts, a[1..])) + ResolveContexts(contexts, b);
    } else {
      assert a + b == b;
    }
  }

  /** The clusters referenced by `found`. */
  function ReferencedClusters(found: seq<Entry>): set<string>
    requires AllLinked(found)
  {
    set k | 0 <= k < |found| :: found[k].context.value.cluster
  }

  /** The users referenced by `found`. */
  function ReferencedUsers(found: seq<Entry>): set<string>
    requires AllLinked(found)
  {
    set k | 0 <= k < |found| :: found[k].context.value.user
  }

  /** `[e for e in s if e['name'] in names]`. */
  function FilterNamed(s: seq<Entry>, names: set<string>): (r: seq<Entry>)
    requires AllNamed(s)
    ensures |r| <= |s|
    ensures forall e :: e in r <==> e in s && e.name.Some? && e.name.value in names
  {
    if s == [] then []
    else
      assert forall e :: e in s <==> e == s[0] || e in s[1..];
      (if s[0].name.value in names then [s[0]] else []) + FilterNamed(s[1..], names)
  }

  /** Filtering keeps the source order: the result for a concatenation is the concatenation of the results. */
  lemma {:induction false} FilterNamedConcat(a: seq<Entry>, b: seq<Entry>, names: set<string>)
    requires AllNamed(a) && AllNamed(b)
    ensures AllNamed(a + b)
    ensures FilterNamed(a + b, names) == FilterNamed(a, names) + FilterNamed(b, names)
  {
    if a != [] {
      var ab := a + b;
      assert ab[0] == a[0] && ab[1..] == a[1..] + b;
      var head := if a[0].name.value in names then [a[0]] else [];
      FilterNamedConcat(a[1..], b, names);
      assert FilterNamed(ab, names) == head + FilterNamed(a[1..] + b, names);
      assert head + (FilterNamed(a[1..], names) + FilterNamed(b, names))
          == (head + FilterNamed(a[1..], names)) + FilterNamed(b, names);
    } else {
      assert a + b == b;
    }
  }

  /** The document `export_contexts` assembles. */
  datatype Exported = Exported(
    apiVersion: string, kind: string, preferences: Mapping, currentContext: string,
    clusters: seq<Entry>, users: seq<Entry>, contexts: seq<Entry>)
  {
    /** The dictionary that is written out. */
    function ToMapping(): Mapping {
      map["apiVersion" := Text(apiVersion), "kind" := Text(kind), "preferences" := Other,
          "current-context" := Text(currentContext),
          "clusters" := Items(clusters), "users" := Items(users), "contexts" := Items(contexts)]
    }
  }

  /**
   * What `export_contexts` relies on without checking: once some context
   * resolves, the resolved contexts carry `context.cluster` and `context.user`
   * and every cluster and user has a `name`.
   */
  predicate Exportable(c: Config, names: seq<string>) {
    var found := ResolveContexts(c.contexts, names);
    found != [] ==> AllLinked(found) && AllNamed(c.clusters) && AllNamed(c.users)
  }

  /** `export_contexts`: None when no requested name resolves. The source document is only read. */
  function ExportContexts(c: Config, contextNames: seq<string>): Option<Exported>
    requires Exportable(c, contextNames)
  {
    var found := ResolveContexts(c.contexts, contextNames);
    if found == [] then None
    else
      Some(Exported("v1", "Config", map[], found[0].name.value,
                    FilterNamed(c.clusters, ReferencedClusters(found)),
                    FilterNamed(c.users, ReferencedUsers(found)),
                    found))
  }

  /**
   * The shape of an export: None exactly when no requested name resolves;
   * otherwise a fresh "v1"/"Config" document with empty preferences, whose
   * contexts are the resolved ones and whose clusters and users are exactly the
   * source entries those contexts reference.
   */
  lemma ExportShape(c: Config, names: seq<string>)
    requires Exportable(c, names)
    ensures ExportContexts(c, names).None? <==> forall n :: n in names ==> !Declares(c.contexts, n)
    ensures ExportContexts(c, names).Some? ==>
      var e := ExportContexts(c, names).value;
      var found := ResolveContexts(c.contexts, names);
      e.apiVersion == "v1" && e.kind == "Config" && e.preferences == map[] &&
      e.contexts == found &&
      (forall x :: x in e.clusters <==> x in c.clusters && x.name.Some? && x.name.value in ReferencedClusters(found)) &&
      (forall x :: x in e.users <==> x in c.users && x.name.Some? && x.name.value in ReferencedUsers(found))
  {
  }

  /** The first resolved context is the one the first resolvable name finds. */
  lemma ResolveFirst(contexts: seq<Entry>, names: seq<string>, k: nat)
    requires k < |names| && Declares(contexts, names[k])
    requires forall j :: 0 <= j < k ==> !Declares(contexts, names[j])
    ensures ResolveContexts(contexts, names) != []
    ensures ResolveContexts(contexts, names)[0].name == Some(names[k])
  {
    assert names == names[..k] + names[k..];
    ResolveContextsConcat(contexts, names[..k], names[k..]);
    assert ResolveContexts(contexts, names[..k]) == [] by {
      forall n | n in names[..k] ensures !Declares(contexts, n) {
        var j :| 0 <= j < k && names[..k][j] == n;
      }
    }
    var i := IndexOfName(contexts, names[k]);
    assert names[k..][0] == names[k];
    assert ResolveContexts(contexts, names[k..])[0] == contexts[i];
  }

  /** The current context of an export is the first requested name that resolves. */
  lemma ExportCurrentIsFirstResolved(c: Config, names: seq<string>, k: nat)
    requires Exportable(c, names)
    requires k < |names| && Declares(c.contexts, names[k])
    requires forall j :: 0 <= j < k ==> !Declares(c.contexts, names[j])
    ensures ExportContexts(c, names).Some?
    ensures ExportContexts(c, names).value.currentContext == names[k]
  {
    ResolveFirst(c.contexts, names, k);
  }

  lemma FilterDeclares(s: seq<Entry>, names: set<string>, n: string)
    requires AllNamed(s) && Declares(s, n) && n in names
    ensures Declares(FilterNamed(s, names), n)
  {
    var m :| 0 <= m < |s| && s[m].name == Some(n);
    var r := FilterNamed(s, names);
    assert s[m] in r;
    var p :| 0 <= p < |r| && r[p] == s[m];
  }

  /**
   * An export is self-contained: when the source document had referential
   * integrity, every exported context names an exported cluster and user, and
   * the exported current context names an exported context.
   */
  lemma ExportSelfContained(c: Config, names: seq<string>)
    requires Exportable(c, names) && Integral(c)
    ensures ExportContexts(c, names).Some? ==>
      var e := ExportContexts(c, names).value;
      var doc := Config(e.clusters, e.users, e.contexts, Some(e.currentContext));
      Integral(doc) && CurrentValid(doc)
  {
    var found := ResolveContexts(c.contexts, names);
    if found != [] {
      var e := ExportContexts(c, names).value;
      forall k | 0 <= k < |found|
        ensures found[k].context.Some?
        ensures Declares(e.clusters, found[k].context.value.cluster)
        ensures Declares(e.users, found[k].context.value.user)
      {
        var i := IndexOfName(c.contexts, found[k].name.value);
        assert found[k] == c.contexts[i];
        var ref := found[k].context.value;
        assert ref.cluster in ReferencedClusters(found);
        assert ref.user in ReferencedUsers(found);
        FilterDeclares(c.clusters, ReferencedClusters(found), ref.cluster);
        FilterDeclares(c.users, ReferencedUsers(found), ref.user);
      }
      assert found[0].name == Some(e.currentContext);
    }
  }

  // ---------------------------------------------------------- the document object

  /**
   * The in-memory kubeconfig the operations work on: the three lists, the
   * current context, and every other top-level key, which no operation touches.
   */
  class KubeConfig {
    var clusters: seq<Entry>
    var users: seq<Entry>
    var contexts: seq<Entry>
    var currentContext: Option<string>
    var others: Mapping

    function Value(): Config
      reads this
    {
      Config(clusters, users, contexts, currentContext)
    }

    constructor (value: Config, others: Mapping)
      ensures Value() == value && this.others == others
    {
      clusters := value.clusters;
      users := value.users;
      contexts := value.contexts;
      currentContext := value.current;
      this.others := others;
    }

    /** Replaces the list of kind `k`, as `main_list[index] = ...` and `main_list.append(...)` do in place. */
    method SetList(k: Kind, s: seq<Entry>)
      modifies this`clusters, this`users, this`contexts
      ensures Value() == old(Value()).Set(k, s) && others == old(others)
    {
      match k
      case ClusterKind => clusters := s;
      case UserKind => users := s;
      case ContextKind => contexts := s;
    }

    /**
     * One pass of the loop of `add_context`: looks the name up, asks before an
     * override, and replaces in place or appends; false when declined.
     */
    method AddItem(kind: Kind, newItem: Entry, respond: Responder) returns (ok: bool)
      requires newItem.name.Some?
      modifies this`clusters, this`users, this`contexts
      ensures var merged := Merge(old(Value()).Get(kind), kind, newItem, respond);
        ok == merged.Some? && Value() == if ok then old(Value()).Set(kind, merged.value) else old(Value())
      ensures others == old(others)
    {
      var itemName := newItem.name.value;
      var mainList := Value().Get(kind);
      var index, existingItem := FindItemByName(mainList, itemName);
      if existingItem.Some? {
        if PromptForOverride(respond, KindName(kind), itemName) {
          SetList(kind, mainList[index := newItem]);
        } else {
          return false;
        }
      } else {
        SetList(kind, mainList + [newItem]);
      }
      return true;
    }

    /** `add_context`: merges a bundle, asking before each override; returns whether all three kinds were written. */
    method AddContext(newConfigData: Mapping, respond: Responder) returns (ok: bool)
      requires ItemsNamed(newConfigData)
      modifies this`clusters, this`users, this`contexts
      ensures AddOutcome(ok, Value()) == AddContextSpec(old(Value()), newConfigData, respond)
      ensures others == old(others)
    {
      if !Extractable(newConfigData) {
        return false;
      }
      var bundle := ExtractBundle(newConfigData).value;
      ghost var start := Value();
      for i := 0 to 3
        invariant AddKinds(start, bundle, respond, i) == AddOutcome(true, Value())
        invariant others == old(others)
      {
        var kind := Kinds[i];
        var written := AddItem(kind, bundle.Item(kind), respond);
        if !written {
          AbortIsFinal(start, bundle, respond, i + 1, 3);
          return false;
        }
      }
      return true;
    }

    /** The cascade step of `delete_context` for one list: unless `used`, pops the first entry named `name`, if any. */
    static method DropUnused(items: seq<Entry>, name: string, used: bool) returns (kept: seq<Entry>)
      ensures kept == Pruned(items, name, used)
    {
      kept := items;
      if !used {
        var index, _ := FindItemByName(kept, name);
        if index != -1 {
          kept := RemoveAt(kept, index);
        }
      }
    }

    /** `delete_context`: removes the first context of that name, then cascades to its cluster and user. */
    method DeleteContext(contextName: string) returns (ok: bool)
      requires Deletable(contexts, contextName)
      modifies this`clusters, this`users, this`contexts, this`currentContext
      ensures DeleteOutcome(ok, Value()) == DeleteContextSpec(old(Value()), contextName)
      ensures others == old(others)
    {
      var updated;
      ok, updated := DeleteFrom(Value(), contextName);
      clusters, users, contexts, currentContext := updated.clusters, updated.users, updated.contexts, updated.current;
    }

    /** The steps of `delete_context` on the document's value: find, pop, cascade, clear the current context. */
    static method DeleteFrom(c: Config, contextName: string) returns (ok: bool, updated: Config)
      requires Deletable(c.contexts, contextName)
      ensures DeleteOutcome(ok, updated) == DeleteContextSpec(c, contextName)
    {
      var contextIndex, contextToDelete := FindItemByName(c.contexts, contextName);
      if contextToDelete.None? {
        return false, c;
      }
      var clusterName := contextToDelete.value.context.value.cluster;
      var userName := contextToDelete.value.context.value.user;
      var remaining := RemoveAt(c.contexts, contextIndex);
      var isClusterUsed := UsesCluster(remaining, clusterName);
      var isUserUsed := UsesUser(remaining, userName);
      var keptClusters := DropUnused(c.clusters, clusterName, isClusterUsed);
      var keptUsers := DropUnused(c.users, userName, isUserUsed);
      var current := if c.current == Some(contextName) then None else c.current;
      DeleteContextSpecAt(c, contextName, contextIndex);
      return true, Config(keptClusters, keptUsers, remaining, current);
    }
  }
}

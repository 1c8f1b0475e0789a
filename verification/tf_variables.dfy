/**
 * The weight-exchange helper: which global variables an output depends on,
 * one placeholder and one assign operation per such variable, and
 * `set_weights`, which feeds new values through those placeholders.
 *
 * The session is not modelled as an object: `set_weights` returns the run
 * request it would hand to the session, and running a request on a store of
 * variable values is modelled separately, with the assign operations writing
 * the fed values.
 */
module TfUtils {
  import opened Wrappers
  import opened OpGraph
  import opened Discovery
  import opened OrderedDicts

  /** A global variable: the name of its operation's node and its identity. */
  datatype GlobalVar = GlobalVar(name: string, id: nat)

  /** A placeholder created for one variable; dtype and shape are not modelled. */
  datatype Placeholder = Placeholder(name: string, variable: GlobalVar)

  /** `variable.assign(placeholder)`. */
  datatype AssignOp = AssignOp(target: GlobalVar, source: Placeholder)

  /** The state the constructor builds: the ordered variable hub, and the placeholder and assign maps. */
  datatype TFVariables = TFVariables(
    hub: OrderedDict<string, GlobalVar>,
    ph: map<string, Placeholder>,
    assign: map<string, AssignOp>)

  /** What `session.run(fetches, feed_dict=feed)` is asked to do. */
  datatype RunRequest<W> = RunRequest(fetches: seq<AssignOp>, feed: map<Placeholder, W>)

  datatype KeyError = KeyError(message: string)

  const NoNodeMessage: string := "NO node's weights could assign in self.graph"

  /** Some global variable has the node name `k`. */
  predicate Named(globals: seq<GlobalVar>, k: string)
  {
    exists i :: 0 <= i < |globals| && globals[i].name == k
  }

  /** The last global variable named `k`: the one a run of `d[k] = v` over the globals leaves behind. */
  function LastNamed(globals: seq<GlobalVar>, k: string): Option<GlobalVar>
  {
    if |globals| == 0 then None
    else if globals[|globals| - 1].name == k then Some(globals[|globals| - 1])
    else LastNamed(globals[..|globals| - 1], k)
  }

  /** The position of the first global variable named `k`, or the length when there is none. */
  function FirstIndex(globals: seq<GlobalVar>, k: string): nat
  {
    if |globals| == 0 then 0
    else
      var f := FirstIndex(globals[..|globals| - 1], k);
      if f < |globals| - 1 then f
      else if globals[|globals| - 1].name == k then |globals| - 1
      else |globals|
  }

  /** `LastNamed` finds a variable exactly when one has that name, and no later one has it. */
  lemma {:induction false} LastNamedIsLast(globals: seq<GlobalVar>, k: string)
    ensures LastNamed(globals, k).None? <==> !Named(globals, k)
    ensures LastNamed(globals, k).Some? ==>
              exists i :: 0 <= i < |globals| && globals[i] == LastNamed(globals, k).value && globals[i].name == k
                          && forall j :: i < j < |globals| ==> globals[j].name != k
    decreases |globals|
  {
    if |globals| > 0 {
      var n := |globals| - 1;
      var front := globals[..n];
      LastNamedIsLast(front, k);
      if globals[n].name != k {
        if Named(globals, k) {
          var i :| 0 <= i < |globals| && globals[i].name == k;
          assert front[i] == globals[i];
        }
        if LastNamed(front, k).Some? {
          var i :| 0 <= i < n && front[i] == LastNamed(front, k).value && front[i].name == k
                   && forall j :: i < j < n ==> front[j].name != k;
          assert globals[i] == front[i];
          assert forall j :: i < j < n ==> globals[j] == front[j];
        } else {
          forall i | 0 <= i < n ensures globals[i].name != k {
            assert globals[i] == front[i];
          }
        }
      }
    }
  }

  /** `FirstIndex` is the position of the first variable with that name, or the length when none has it. */
  lemma {:induction false} FirstIndexIsFirst(globals: seq<GlobalVar>, k: string)
    ensures FirstIndex(globals, k) <= |globals|
    ensures forall j :: 0 <= j < FirstIndex(globals, k) ==> globals[j].name != k
    ensures FirstIndex(globals, k) < |globals| ==> globals[FirstIndex(globals, k)].name == k
    decreases |globals|
  {
    if |globals| > 0 {
      var n := |globals| - 1;
      var front := globals[..n];
      FirstIndexIsFirst(front, k);
      assert forall j :: 0 <= j < n ==> globals[j] == front[j];
    }
  }

  lemma LastNamedSnoc(globals: seq<GlobalVar>, x: GlobalVar, k: string)
    ensures LastNamed(globals + [x], k) == if x.name == k then Some(x) else LastNamed(globals, k)
  {
  }

  lemma FirstIndexSnoc(globals: seq<GlobalVar>, x: GlobalVar, k: string)
    ensures FirstIndex(globals + [x], k)
            == if FirstIndex(globals, k) < |globals| then FirstIndex(globals, k)
               else if x.name == k then |globals| else |globals| + 1
  {
  }

  /**
   * `hub` is what the selection loop holds after the globals `seen`: the
   * recorded names among them, each with its last variable of that name, in
   * the order the names first appear.
   */
  ghost predicate Selected(seen: seq<GlobalVar>, recorded: seq<string>, hub: OrderedDict<string, GlobalVar>)
  {
    SelectedEntries(seen, recorded, hub) && SelectedOrder(seen, hub)
  }

  ghost predicate SelectedEntries(seen: seq<GlobalVar>, recorded: seq<string>, hub: OrderedDict<string, GlobalVar>)
  {
    && Valid(hub)
    && (forall k :: k in hub.values <==> k in recorded && Named(seen, k))
    && (forall k :: k in hub.values ==> LastNamed(seen, k) == Some(hub.values[k]) && hub.values[k].name == k)
  }

  ghost predicate SelectedOrder(seen: seq<GlobalVar>, hub: OrderedDict<string, GlobalVar>)
  {
    && (forall a :: 0 <= a < |hub.keys| ==> FirstIndex(seen, hub.keys[a]) < |seen|)
    && (forall a, b :: 0 <= a < b < |hub.keys| ==> FirstIndex(seen, hub.keys[a]) < FirstIndex(seen, hub.keys[b]))
  }

  lemma NamedSnoc(seen: seq<GlobalVar>, v: GlobalVar)
    ensures forall k :: Named(seen + [v], k) <==> Named(seen, k) || v.name == k
  {
    var seen' := seen + [v];
    assert seen'[|seen|] == v;
    forall k | Named(seen', k) && v.name != k ensures Named(seen, k) {
      var i :| 0 <= i < |seen'| && seen'[i].name == k;
      assert seen[i] == seen'[i];
    }
    forall k | Named(seen, k) ensures Named(seen', k) {
      var i :| 0 <= i < |seen| && seen[i].name == k;
      assert seen'[i] == seen[i];
    }
  }

  /** One more global: its name is recorded or overwritten when it was recorded, and skipped otherwise. */
  function SelectOne(recorded: seq<string>, hub: OrderedDict<string, GlobalVar>, v: GlobalVar): OrderedDict<string, GlobalVar>
    requires Valid(hub)
  {
    if v.name in recorded then Put(hub, v.name, v) else hub
  }

  lemma EntriesStep(seen: seq<GlobalVar>, recorded: seq<string>, hub: OrderedDict<string, GlobalVar>, v: GlobalVar)
    requires SelectedEntries(seen, recorded, hub)
    ensures SelectedEntries(seen + [v], recorded, SelectOne(recorded, hub, v))
  {
    NamedSnoc(seen, v);
    forall k ensures LastNamed(seen + [v], k) == if v.name == k then Some(v) else LastNamed(seen, k) {
      LastNamedSnoc(seen, v, k);
    }
  }

  lemma OrderStep(seen: seq<GlobalVar>, recorded: seq<string>, hub: OrderedDict<string, GlobalVar>, v: GlobalVar)
    requires SelectedEntries(seen, recorded, hub) && SelectedOrder(seen, hub)
    ensures SelectedOrder(seen + [v], SelectOne(recorded, hub, v))
  {
    var seen', hub' := seen + [v], SelectOne(recorded, hub, v);
    forall k ensures FirstIndex(seen', k)
                     == if FirstIndex(seen, k) < |seen| then FirstIndex(seen, k)
                        else if v.name == k then |seen| else |seen| + 1 {
      FirstIndexSnoc(seen, v, k);
    }
    forall a | 0 <= a < |hub.keys| ensures FirstIndex(seen', hub.keys[a]) == FirstIndex(seen, hub.keys[a]) {
    }
    if hub'.keys != hub.keys {
      assert hub'.keys == hub.keys + [v.name];
      assert v.name !in hub.values;
      FirstIndexIsFirst(seen, v.name);
      if FirstIndex(seen, v.name) < |seen| {
        assert Named(seen, v.name);
      }
      assert FirstIndex(seen', v.name) == |seen|;
      forall a | 0 <= a < |hub.keys| ensures hub'.keys[a] == hub.keys[a] {
      }
    }
  }

  /**
   * The hub: every global variable whose node name was recorded, keyed by
   * that name, in the order of the globals.
   */
  method SelectVariables(globals: seq<GlobalVar>, recorded: seq<string>) returns (hub: OrderedDict<string, GlobalVar>)
    ensures Valid(hub)
    ensures forall k :: k in hub.values <==> k in recorded && Named(globals, k)
    ensures forall k :: k in hub.values ==> LastNamed(globals, k) == Some(hub.values[k]) && hub.values[k].name == k
    ensures forall a, b :: 0 <= a < b < |hub.keys| ==> FirstIndex(globals, hub.keys[a]) < FirstIndex(globals, hub.keys[b])
  {
    hub := Empty();
    var i := 0;
    while i < |globals|
      invariant 0 <= i <= |globals|
      invariant Selected(globals[..i], recorded, hub)
    {
      var v := globals[i];
      assert globals[..i + 1] == globals[..i] + [v];
      EntriesStep(globals[..i], recorded, hub, v);
      OrderStep(globals[..i], recorded, hub, v);
      if v.name in recorded {
        hub := Put(hub, v.name, v);
      }
      i := i + 1;
    }
    assert globals[..i] == globals;
  }

  /** The placeholder for the variable under key `k`. */
  function MakePlaceholder(k: string, variable: GlobalVar): Placeholder
  {
    Placeholder("ph_" + k, variable)
  }

  /** Each hub key has a placeholder named after it and an assign op from that placeholder to its variable. */
  ghost predicate Wired(hub: OrderedDict<string, GlobalVar>, ph: map<string, Placeholder>, assign: map<string, AssignOp>)
  {
    && (forall k :: k in ph <==> k in hub.values)
    && (forall k :: k in assign <==> k in hub.values)
    && (forall k :: k in hub.values ==> ph[k] == MakePlaceholder(k, hub.values[k]))
    && (forall k :: k in hub.values ==> assign[k] == AssignOp(hub.values[k], ph[k]))
  }

  /** The hub is a valid ordered dictionary of variables under their own names, and the maps are wired to it. */
  ghost predicate ValidVariables(t: TFVariables)
  {
    && Valid(t.hub)
    && (forall k :: k in t.hub.values ==> t.hub.values[k].name == k)
    && Wired(t.hub, t.ph, t.assign)
  }

  /** The placeholder and assign-op loop of the constructor. */
  method MakeAssignMaps(hub: OrderedDict<string, GlobalVar>) returns (ph: map<string, Placeholder>, assign: map<string, AssignOp>)
    requires Valid(hub)
    ensures Wired(hub, ph, assign)
  {
    ph, assign := map[], map[];
    var i := 0;
    while i < |hub.keys|
      invariant 0 <= i <= |hub.keys|
      invariant forall k :: k in ph <==> k in hub.keys[..i]
      invariant forall k :: k in assign <==> k in hub.keys[..i]
      invariant forall k :: k in ph ==> ph[k] == MakePlaceholder(k, hub.values[k])
      invariant forall k :: k in assign ==> k in ph && assign[k] == AssignOp(hub.values[k], ph[k])
    {
      var k := hub.keys[i];
      assert hub.keys[..i + 1] == hub.keys[..i] + [k];
      ph := ph[k := MakePlaceholder(k, hub.values[k])];
      assign := assign[k := AssignOp(hub.values[k], ph[k])];
      i := i + 1;
    }
    assert hub.keys[..i] == hub.keys;
  }

  /** Placeholder names tell their keys apart. */
  lemma PlaceholderNamesDistinct(a: string, b: string, va: GlobalVar, vb: GlobalVar)
    requires MakePlaceholder(a, va) == MakePlaceholder(b, vb)
    ensures a == b
  {
    assert a == ("ph_" + a)[3..];
    assert b == ("ph_" + b)[3..];
  }

  /** The constructor; it fails with the search's `AttributeError`. */
  method Build(g: Graph, output: OutputOps, globals: seq<GlobalVar>) returns (r: Result<TFVariables, AttributeError>)
    ensures r.Failure? <==> MeetsForeignObject(g, Roots(output))
    ensures r.Success? ==> ValidVariables(r.value)
    ensures r.Success? ==> forall k :: k in r.value.hub.values <==>
              k in VariableNames(g, ReachableSet(g, Roots(output))) && Named(globals, k)
    ensures r.Success? ==> forall k :: k in r.value.hub.values ==> LastNamed(globals, k) == Some(r.value.hub.values[k])
    ensures r.Success? ==> forall a, b :: 0 <= a < b < |r.value.hub.keys| ==>
              FirstIndex(globals, r.value.hub.keys[a]) < FirstIndex(globals, r.value.hub.keys[b])
  {
    var found := Discover(g, output);
    if found.Failure? {
      return Failure(found.error);
    }
    var recorded := found.value.recorded;
    assert forall k :: k in recorded <==> k in Elems(recorded);
    var hub := SelectVariables(globals, recorded);
    var ph, assign := MakeAssignMaps(hub);
    r := Success(TFVariables(hub, ph, assign));
  }

  /** `[assign[k] for k in keys if k in assign]`. */
  function AssignOpsFor(keys: seq<string>, assign: map<string, AssignOp>): (r: seq<AssignOp>)
    ensures forall a :: a in r <==> exists k :: k in keys && k in assign && a == assign[k]
  {
    if |keys| == 0 then []
    else
      var rest := AssignOpsFor(keys[1..], assign);
      assert forall k :: k in keys <==> k == keys[0] || k in keys[1..];
      if keys[0] in assign then [assign[keys[0]]] + rest else rest
  }

  /** `{ph[k]: value for (k, value) in weights.items() if k in ph}`. */
  function FeedFor<W>(t: TFVariables, weights: OrderedDict<string, W>): (r: map<Placeholder, W>)
    requires ValidVariables(t)
    ensures forall p :: p in r <==> exists k :: k in weights.values && k in t.ph && p == t.ph[k]
    ensures forall k :: k in weights.values && k in t.ph ==> r[t.ph[k]] == weights.values[k]
  {
    forall a, b | a in t.ph && b in t.ph && t.ph[a] == t.ph[b] ensures a == b {
      PlaceholderNamesDistinct(a, b, t.hub.values[a], t.hub.values[b]);
    }
    map k | k in weights.values && k in t.ph :: t.ph[k] := weights.values[k]
  }

  /**
   * `set_weights`: the assign ops of the keys the caller passes that have
   * one, and the feed of their values; a `KeyError` when no key has one.
   */
  function SetWeights<W>(t: TFVariables, weights: OrderedDict<string, W>): (r: Result<RunRequest<W>, KeyError>)
    requires ValidVariables(t) && Valid(weights)
    ensures r.Failure? <==> forall k :: k in weights.values ==> k !in t.hub.values
    ensures r.Failure? ==> r.error == KeyError(NoNodeMessage)
    ensures r.Success? ==> forall a :: a in r.value.fetches <==>
              exists k :: k in weights.values && k in t.hub.values && a == AssignOp(t.hub.values[k], MakePlaceholder(k, t.hub.values[k]))
    ensures r.Success? ==> forall k :: k in weights.values && k in t.hub.values ==>
              MakePlaceholder(k, t.hub.values[k]) in r.value.feed && r.value.feed[MakePlaceholder(k, t.hub.values[k])] == weights.values[k]
    ensures r.Success? ==> forall p :: p in r.value.feed ==>
              exists k :: k in weights.values && k in t.hub.values && p == MakePlaceholder(k, t.hub.values[k])
  {
    var fetches := AssignOpsFor(weights.keys, t.assign);
    assert forall k :: k in weights.values && k in t.hub.values ==> t.assign[k] in fetches;
    if |fetches| == 0 then
      Failure(KeyError(NoNodeMessage))
    else
      assert fetches[0] in fetches;
      Success(RunRequest(fetches, FeedFor(t, weights)))
  }

  /** Every fetched assign op reads a fed placeholder, and no two write the same variable. */
  ghost predicate Runnable<W>(req: RunRequest<W>)
  {
    && (forall i :: 0 <= i < |req.fetches| ==> req.fetches[i].source in req.feed)
    && (forall i, j :: 0 <= i < j < |req.fetches| ==> req.fetches[i].target != req.fetches[j].target)
  }

  /** Running the assign ops of a request, in order, on a store of variable values. */
  function RunAssign<W>(store: map<GlobalVar, W>, req: RunRequest<W>): map<GlobalVar, W>
    requires forall i :: 0 <= i < |req.fetches| ==> req.fetches[i].source in req.feed
    decreases |req.fetches|
  {
    if |req.fetches| == 0 then store
    else
      var a := req.fetches[0];
      RunAssign(store[a.target := req.feed[a.source]], req.(fetches := req.fetches[1..]))
  }

  /** A variable no fetched op writes keeps its value, or stays absent. */
  lemma {:induction false} RunAssignKeeps<W>(store: map<GlobalVar, W>, req: RunRequest<W>, v: GlobalVar)
    requires forall i :: 0 <= i < |req.fetches| ==> req.fetches[i].source in req.feed
    requires forall a :: a in req.fetches ==> a.target != v
    ensures (v in RunAssign(store, req) <==> v in store) && (v in store ==> RunAssign(store, req)[v] == store[v])
    decreases |req.fetches|
  {
    if |req.fetches| > 0 {
      var a := req.fetches[0];
      var rest := req.(fetches := req.fetches[1..]);
      assert forall b :: b in rest.fetches ==> b in req.fetches;
      RunAssignKeeps(store[a.target := req.feed[a.source]], rest, v);
    }
  }

  /** With distinct targets, a fetched op's target ends up holding the value fed to its placeholder. */
  lemma {:induction false} RunAssignSets<W>(store: map<GlobalVar, W>, req: RunRequest<W>, a: AssignOp)
    requires Runnable(req) && a in req.fetches
    ensures a.target in RunAssign(store, req) && RunAssign(store, req)[a.target] == req.feed[a.source]
    decreases |req.fetches|
  {
    var h := req.fetches[0];
    var store' := store[h.target := req.feed[h.source]];
    var rest := req.(fetches := req.fetches[1..]);
    assert Runnable(rest) by {
      forall i | 0 <= i < |rest.fetches| ensures rest.fetches[i] == req.fetches[i + 1] {
      }
    }
    if a in rest.fetches {
      RunAssignSets(store', rest, a);
    } else {
      assert a == h;
      forall c | c in rest.fetches ensures c.target != h.target {
        var j :| 0 <= j < |rest.fetches| && rest.fetches[j] == c;
        assert req.fetches[j + 1] == c;
      }
      RunAssignKeeps(store', rest, h.target);
    }
  }

  /**
   * With distinct targets, each assigned variable ends up holding the value
   * fed to its placeholder and every other variable keeps its value, so the
   * order the session runs the ops in does not matter.
   */
  lemma RunAssignEffect<W>(store: map<GlobalVar, W>, req: RunRequest<W>)
    requires Runnable(req)
    ensures forall a :: a in req.fetches ==> a.target in RunAssign(store, req) && RunAssign(store, req)[a.target] == req.feed[a.source]
    ensures forall v :: (forall a :: a in req.fetches ==> a.target != v) ==>
              (v in RunAssign(store, req) <==> v in store) && (v in store ==> RunAssign(store, req)[v] == store[v])
  {
    forall a | a in req.fetches
      ensures a.target in RunAssign(store, req) && RunAssign(store, req)[a.target] == req.feed[a.source]
    {
      RunAssignSets(store, req, a);
    }
    forall v | forall a :: a in req.fetches ==> a.target != v
      ensures (v in RunAssign(store, req) <==> v in store) && (v in store ==> RunAssign(store, req)[v] == store[v])
    {
      RunAssignKeeps(store, req, v);
    }
  }

  /** A request `SetWeights` builds can be run. */
  lemma SetWeightsRunnable<W>(t: TFVariables, weights: OrderedDict<string, W>)
    requires ValidVariables(t) && Valid(weights) && SetWeights(t, weights).Success?
    ensures Runnable(SetWeights(t, weights).value)
  {
    var req := SetWeights(t, weights).value;
    forall i | 0 <= i < |req.fetches| ensures req.fetches[i].source in req.feed {
      assert req.fetches[i] in req.fetches;
    }
    DistinctTargets(weights.keys, t);
  }

  /** Distinct keys give assign ops with distinct targets, since each variable sits under its own name. */
  lemma {:induction false} DistinctTargets(keys: seq<string>, t: TFVariables)
    requires ValidVariables(t)
    requires forall a, b :: 0 <= a < b < |keys| ==> keys[a] != keys[b]
    ensures forall i, j :: 0 <= i < j < |AssignOpsFor(keys, t.assign)| ==>
              AssignOpsFor(keys, t.assign)[i].target != AssignOpsFor(keys, t.assign)[j].target
  {
    if |keys| > 0 {
      var rest := AssignOpsFor(keys[1..], t.assign);
      DistinctTargets(keys[1..], t);
      if keys[0] in t.assign {
        var r := AssignOpsFor(keys, t.assign);
        assert r == [t.assign[keys[0]]] + rest;
        forall j | 0 < j < |r| ensures r[0].target != r[j].target {
          assert r[j] in rest;
          var k :| k in keys[1..] && k in t.assign && r[j] == t.assign[k];
          assert r[j].target.name == k;
        }
      }
    }
  }

  /**
   * `set_weights` on a store of variable values: either a `KeyError` and the
   * store as it was, or the store with each variable whose key the caller
   * passed holding the passed value.
   */
  function SetWeightsOnStore<W>(t: TFVariables, weights: OrderedDict<string, W>, store: map<GlobalVar, W>)
    : (r: (map<GlobalVar, W>, Option<KeyError>))
    requires ValidVariables(t) && Valid(weights)
    ensures r.1.Some? <==> forall k :: k in weights.values ==> k !in t.hub.values
    ensures r.1.Some? ==> r.0 == store
    ensures r.1.None? ==> forall k :: k in weights.values && k in t.hub.values ==>
              t.hub.values[k] in r.0 && r.0[t.hub.values[k]] == weights.values[k]
    ensures r.1.None? ==> forall v :: (forall k :: k in weights.values && k in t.hub.values ==> t.hub.values[k] != v) ==>
              (v in r.0 <==> v in store) && (v in store ==> r.0[v] == store[v])
  {
    match SetWeights(t, weights)
    case Failure(e) => (store, Some(e))
    case Success(req) =>
      SetWeightsRunnable(t, weights);
      RunAssignEffect(store, req);
      (RunAssign(store, req), None)
  }
}

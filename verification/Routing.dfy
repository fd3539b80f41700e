/**
 The routing index of the upstream pool: which backends serve a model, rebuilt whenever one
 node's engines change. Keys are "node/model" strings, and both halves may contain slashes.
 */
module Routing {
  import opened Admission

  function Key(node: string, model: string): string {
    node + "/" + model
  }

  /** Neither node name, followed by a slash, begins the other. */
  predicate Apart(a: string, b: string) {
    !(a + "/" <= b) && !(b + "/" <= a)
  }

  /** Keys of two different nodes can coincide exactly when their names are not apart. */
  lemma KeysCollideIff(a: string, b: string)
    requires a != b
    ensures (exists m, k :: Key(a, m) == Key(b, k)) <==> !Apart(a, b)
  {
    if a + "/" <= b {
      var m := b[|a| + 1..] + "/";
      assert b == a + "/" + b[|a| + 1..];
      assert Key(a, m) == Key(b, "");
    } else if b + "/" <= a {
      var k := a[|b| + 1..] + "/";
      assert a == b + "/" + a[|b| + 1..];
      assert Key(b, k) == Key(a, "");
    } else if m, k :| Key(a, m) == Key(b, k) {
      KeyDecodes(a, m, b, k);
    }
  }

  /** When two keys coincide, the shorter node name with its slash begins the longer. */
  lemma ShorterBegins(a: string, m: string, b: string, k: string)
    requires Key(a, m) == Key(b, k) && |a| < |b|
    ensures a + "/" <= b
  {
    var key := Key(a, m);
    assert key[..|b|] == b && key[..|a| + 1] == a + "/";
    assert key[..|b|][..|a| + 1] == key[..|a| + 1];
  }

  lemma KeyDecodes(a: string, m: string, b: string, k: string)
    requires Key(a, m) == Key(b, k) && (a == b || Apart(a, b))
    ensures a == b && m == k
  {
    var key := Key(a, m);
    if |a| < |b| {
      ShorterBegins(a, m, b, k);
    } else if |b| < |a| {
      ShorterBegins(b, k, a, m);
    } else {
      assert key[..|a|] == a && key[..|b|] == b;
      assert key[|a| + 1..] == m && key[|b| + 1..] == k;
    }
  }

  lemma KeysCollideExample()
    ensures Key("a/b", "c") == Key("a", "b/c")
  {
  }

  // ---------------------------------------------------------------------------
  // The index as a value
  // ---------------------------------------------------------------------------

  /** A node and a model it serves. */
  type Pair = (string, string)

  predicate KeysTell(pairs: set<Pair>) {
    forall p, q | p in pairs && q in pairs :: p.0 == q.0 || Apart(p.0, q.0)
  }

  predicate Injective<B(==)>(d: map<string, B>) {
    forall k, l | k in d && l in d && d[k] == d[l] :: k == l
  }

  function Append<B>(idx: map<string, seq<B>>, m: string, b: B): map<string, seq<B>> {
    idx[m := (if m in idx then idx[m] else []) + [b]]
  }

  /** Under each model, `idx` lists exactly the backends of the pairs that serve it, each once. */
  ghost predicate IsIndexOf<B>(idx: map<string, seq<B>>, d: map<string, B>, pairs: set<Pair>) {
    && (forall m | m in idx :: idx[m] != [])
    && (forall m, i | m in idx && 0 <= i < |idx[m]| :: Backs(d, pairs, m, idx[m][i]))
    && (forall p | p in pairs :: p.1 in idx && Key(p.0, p.1) in d && d[Key(p.0, p.1)] in idx[p.1])
    && (forall m, i, j | m in idx && 0 <= i < j < |idx[m]| :: idx[m][i] != idx[m][j])
  }

  ghost predicate Backs<B>(d: map<string, B>, pairs: set<Pair>, m: string, b: B) {
    exists n :: (n, m) in pairs && Key(n, m) in d && d[Key(n, m)] == b
  }

  lemma AddPair<B>(idx: map<string, seq<B>>, d: map<string, B>, pairs: set<Pair>, n: string, m: string)
    requires IsIndexOf(idx, d, pairs) && Injective(d) && KeysTell(pairs + {(n, m)})
    requires (n, m) !in pairs && Key(n, m) in d
    ensures IsIndexOf(Append(idx, m, d[Key(n, m)]), d, pairs + {(n, m)})
  {
    var b := d[Key(n, m)];
    var idx' := Append(idx, m, b);
    var pairs' := pairs + {(n, m)};
    if m in idx && b in idx[m] {
      var i :| 0 <= i < |idx[m]| && idx[m][i] == b;
      assert Backs(d, pairs, m, idx[m][i]);
      var n' :| (n', m) in pairs && Key(n', m) in d && d[Key(n', m)] == b;
      assert (n, m) in pairs' && (n', m) in pairs';
      KeyDecodes(n', m, n, m);
    }
    forall m', i | m' in idx' && 0 <= i < |idx'[m']| ensures Backs(d, pairs', m', idx'[m'][i]) {
      if m' != m || (m in idx && i < |idx[m]|) {
        assert Backs(d, pairs, m', idx[m'][i]);
        var n' :| (n', m') in pairs && Key(n', m') in d && d[Key(n', m')] == idx[m'][i];
        assert (n', m') in pairs';
      } else {
        assert (n, m) in pairs';
      }
    }
    forall p | p in pairs' ensures p.1 in idx' && Key(p.0, p.1) in d && d[Key(p.0, p.1)] in idx'[p.1] {
      if p in pairs { assert d[Key(p.0, p.1)] in idx[p.1]; }
    }
  }

  /** A model is offered exactly when some node serves it. */
  lemma OfferedIffServed<B>(idx: map<string, seq<B>>, d: map<string, B>, pairs: set<Pair>, m: string)
    requires IsIndexOf(idx, d, pairs)
    ensures m in idx <==> exists n :: (n, m) in pairs
  {
    if m in idx {
      assert Backs(d, pairs, m, idx[m][0]);
    }
  }

  // ---------------------------------------------------------------------------
  // Backend objects
  // ---------------------------------------------------------------------------

  /** One ready engine, as a node's agent reports it. */
  datatype Engine = Engine(model: string, baseURL: string, maxConc: int, weight: int)

  datatype BackendObject = BackendObject(baseURL: string, load: Replica)

  /** The backend objects ever made, by identity, and the key each live one is stored under. */
  datatype Objects = Objects(made: seq<BackendObject>, dynamic: map<string, nat>)

  /** The text without its trailing slashes. */
  function TrimSlash(s: string): (r: string)
    ensures r <= s && (forall i | |r| <= i < |s| :: s[i] == '/') && (r == "" || r[|r| - 1] != '/')
  {
    if |s| > 0 && s[|s| - 1] == '/' then TrimSlash(s[..|s| - 1]) else s
  }

  function AtLeastOne(n: int): (r: int)
    ensures r >= 1 && (n >= 1 ==> r == n) && (n < 1 ==> r == 1)
  {
    if n > 1 then n else 1
  }

  ghost predicate DistinctModels(es: seq<Engine>) {
    forall i, j | 0 <= i < j < |es| :: es[i].model != es[j].model
  }

  ghost predicate Sound(o: Objects) {
    Injective(o.dynamic) && forall k | k in o.dynamic :: o.dynamic[k] < |o.made|
  }

  predicate SameAddress(o: Objects, key: string, e: Engine)
    requires Sound(o)
  {
    key in o.dynamic && o.made[o.dynamic[key]].baseURL == TrimSlash(e.baseURL)
  }

  /** Refresh the limit of an engine at a known address, or make a healthy idle backend for it. */
  function UpdateEngine(o: Objects, key: string, e: Engine): (o': Objects)
    requires Sound(o)
    ensures Sound(o')
  {
    if SameAddress(o, key, e) then
      var id := o.dynamic[key];
      o.(made := o.made[id := o.made[id].(load := o.made[id].load.(maxConc := AtLeastOne(e.maxConc)))])
    else
      var b := BackendObject(TrimSlash(e.baseURL), Replica(0, AtLeastOne(e.maxConc), AtLeastOne(e.weight), true));
      Objects(o.made + [b], o.dynamic[key := |o.made|])
  }

  function UpdateEngines(o: Objects, node: string, es: seq<Engine>): (o': Objects)
    requires Sound(o)
    ensures Sound(o')
  {
    if es == [] then o
    else
      var last := es[|es| - 1];
      UpdateEngine(UpdateEngines(o, node, es[..|es| - 1]), Key(node, last.model), last)
  }

  function KeysOf(node: string, es: seq<Engine>): (keys: seq<string>)
    ensures |keys| == |es| && forall i | 0 <= i < |es| :: keys[i] == Key(node, es[i].model)
  {
    if es == [] then [] else KeysOf(node, es[..|es| - 1]) + [Key(node, es[|es| - 1].model)]
  }

  /** Nothing but admission limits changed on the objects that already existed. */
  ghost predicate OnlyLimitsMoved(made: seq<BackendObject>, made': seq<BackendObject>) {
    |made| <= |made'| && forall i | 0 <= i < |made| ::
      made'[i] == made[i].(load := made[i].load.(maxConc := made'[i].load.maxConc))
  }

  /** Engine `e` is served under `key` at its address and limit: by the same object as before, with
      its in-flight count, when the address is unchanged, and by a new idle healthy one otherwise. */
  ghost predicate Refreshed(o: Objects, o': Objects, key: string, e: Engine)
    requires Sound(o) && Sound(o') && OnlyLimitsMoved(o.made, o'.made)
  {
    && key in o'.dynamic
    && var b := o'.made[o'.dynamic[key]];
       && b.baseURL == TrimSlash(e.baseURL) && b.load.maxConc == AtLeastOne(e.maxConc)
       && (if SameAddress(o, key, e)
           then o'.dynamic[key] == o.dynamic[key] && b.load.inflight == o.made[o.dynamic[key]].load.inflight
           else o'.dynamic[key] >= |o.made| && b.load.inflight == 0 && b.load.healthy
                && b.load.weight == if e.weight > 0 then e.weight else 1)
  }

  lemma KeysDiffer(node: string, es: seq<Engine>, i: nat, j: nat)
    requires DistinctModels(es) && i < j < |es|
    ensures Key(node, es[i].model) != Key(node, es[j].model)
  {
    if Key(node, es[i].model) == Key(node, es[j].model) {
      KeyDecodes(node, es[i].model, node, es[j].model);
    }
  }

  /** From `o` to `o'` the keys `ks` were stored, and every other key and its object stayed. */
  ghost predicate Touched(o: Objects, o': Objects, ks: seq<string>)
    requires Sound(o)
  {
    && OnlyLimitsMoved(o.made, o'.made)
    && (forall k :: k in o'.dynamic <==> k in o.dynamic || k in ks)
    && (forall k | k in o.dynamic && k !in ks ::
          o'.dynamic[k] == o.dynamic[k] && o'.made[o.dynamic[k]] == o.made[o.dynamic[k]])
  }

  lemma UpdateOne(o: Objects, key: string, e: Engine)
    requires Sound(o)
    ensures Touched(o, UpdateEngine(o, key, e), [key]) && Refreshed(o, UpdateEngine(o, key, e), key, e)
  {
  }

  lemma TouchedTwice(o: Objects, o1: Objects, o2: Objects, ks: seq<string>, key: string)
    requires Sound(o) && Sound(o1) && Touched(o, o1, ks) && Touched(o1, o2, [key])
    ensures Touched(o, o2, ks + [key])
  {
  }

  /** The engines reported so far are all served as they should be. */
  ghost predicate AllRefreshed(o: Objects, o': Objects, node: string, es: seq<Engine>)
    requires Sound(o) && Sound(o') && OnlyLimitsMoved(o.made, o'.made)
  {
    forall i | 0 <= i < |es| :: Refreshed(o, o', Key(node, es[i].model), es[i])
  }

  /** Every engine of the other nodes is served by the same object, in the same state. */
  ghost predicate OthersKept(byNode: map<string, seq<string>>, node: string, o: Objects, o': Objects)
    requires Sound(o) && Sound(o') && OnlyLimitsMoved(o.made, o'.made)
  {
    forall n, k | n in byNode && n != node && k in byNode[n] ::
      k in o.dynamic && k in o'.dynamic && o'.dynamic[k] == o.dynamic[k]
      && o'.made[o'.dynamic[k]] == o.made[o.dynamic[k]]
  }

  lemma KeysOfSnoc(node: string, es: seq<Engine>)
    requires es != [] && DistinctModels(es)
    ensures var n := |es| - 1;
            && KeysOf(node, es) == KeysOf(node, es[..n]) + [Key(node, es[n].model)]
            && Key(node, es[n].model) !in KeysOf(node, es[..n])
  {
    var n := |es| - 1;
    forall i | 0 <= i < n ensures KeysOf(node, es[..n])[i] != Key(node, es[n].model) {
      KeysDiffer(node, es, i, n);
    }
  }

  lemma OneMoreRefreshed(o: Objects, o1: Objects, o2: Objects, node: string, es: seq<Engine>, key: string)
    requires es != [] && DistinctModels(es) && Sound(o) && Sound(o1) && Sound(o2)
    requires key == Key(node, es[|es| - 1].model)
    requires OnlyLimitsMoved(o.made, o1.made) && OnlyLimitsMoved(o.made, o2.made) && Touched(o1, o2, [key])
    requires AllRefreshed(o, o1, node, es[..|es| - 1]) && Refreshed(o, o2, key, es[|es| - 1])
    ensures AllRefreshed(o, o2, node, es)
  {
    var n := |es| - 1;
    forall i | 0 <= i < n ensures Refreshed(o, o2, Key(node, es[i].model), es[i]) {
      assert es[..n][i] == es[i];
      KeysDiffer(node, es, i, n);
      StaysRefreshed(o, o1, o2, Key(node, es[i].model), es[i], key);
    }
  }

  /** A sync serves exactly the reported engines under the node's keys and leaves the rest alone. */
  lemma {:induction false} UpdateRefreshes(o: Objects, node: string, es: seq<Engine>)
    requires Sound(o) && DistinctModels(es)
    ensures Touched(o, UpdateEngines(o, node, es), KeysOf(node, es))
    ensures AllRefreshed(o, UpdateEngines(o, node, es), node, es)
    decreases |es|
  {
    if es != [] {
      var n := |es| - 1;
      var front, key := es[..n], Key(node, es[n].model);
      UpdateRefreshes(o, node, front);
      var o1 := UpdateEngines(o, node, front);
      var o2 := UpdateEngine(o1, key, es[n]);
      UpdateOne(o1, key, es[n]);
      KeysOfSnoc(node, es);
      TouchedTwice(o, o1, o2, KeysOf(node, front), key);
      BecomesRefreshed(o, o1, o2, KeysOf(node, front), key, es[n]);
      OneMoreRefreshed(o, o1, o2, node, es, key);
    }
  }

  lemma StaysRefreshed(o: Objects, o1: Objects, o2: Objects, k: string, e: Engine, key: string)
    requires Sound(o) && Sound(o1) && Sound(o2) && OnlyLimitsMoved(o.made, o1.made) && OnlyLimitsMoved(o.made, o2.made)
    requires Touched(o1, o2, [key]) && k != key && Refreshed(o, o1, k, e)
    ensures Refreshed(o, o2, k, e)
  {
    assert k !in [key];
  }

  lemma BecomesRefreshed(o: Objects, o1: Objects, o2: Objects, ks: seq<string>, key: string, e: Engine)
    requires Sound(o) && Sound(o1) && Sound(o2) && Touched(o, o1, ks) && key !in ks
    requires OnlyLimitsMoved(o1.made, o2.made) && OnlyLimitsMoved(o.made, o2.made)
    requires Refreshed(o1, o2, key, e)
    ensures Refreshed(o, o2, key, e)
  {
    assert SameAddress(o, key, e) == SameAddress(o1, key, e);
  }

  // ---------------------------------------------------------------------------
  // The node table and the pool
  // ---------------------------------------------------------------------------

  /** `k` is a key of `node`. */
  predicate KeyOf(node: string, k: string) {
    |k| > |node| && k == Key(node, k[|node| + 1..])
  }

  /** The pairs one node contributes. */
  function PairsOf(node: string, keys: seq<string>): set<Pair> {
    set k | k in keys && |k| > |node| :: (node, k[|node| + 1..])
  }

  function AllPairs(byNode: map<string, seq<string>>): set<Pair> {
    set n, k | n in byNode && k in byNode[n] && |k| > |n| :: (n, k[|n| + 1..])
  }

  ghost predicate NodeKeys(node: string, keys: seq<string>, d: map<string, nat>) {
    && (forall i | 0 <= i < |keys| :: keys[i] in d && KeyOf(node, keys[i]))
    && (forall i, j | 0 <= i < j < |keys| :: keys[i] != keys[j])
  }

  /** Every node's keys are its own and stored; node names are apart; nothing else is stored. */
  ghost predicate TableSound(byNode: map<string, seq<string>>, d: map<string, nat>) {
    && (forall n | n in byNode :: NodeKeys(n, byNode[n], d))
    && (forall a, b | a in byNode && b in byNode && a != b :: Apart(a, b))
    && (forall k | k in d :: Owned(byNode, k))
  }

  ghost predicate Owned(byNode: map<string, seq<string>>, k: string) {
    exists n :: n in byNode && k in byNode[n]
  }

  lemma OneOwner(byNode: map<string, seq<string>>, d: map<string, nat>, a: string, b: string, k: string)
    requires TableSound(byNode, d) && a in byNode && k in byNode[a] && KeyOf(b, k)
    requires a == b || Apart(a, b)
    ensures a == b
  {
    var i :| 0 <= i < |byNode[a]| && byNode[a][i] == k;
    KeyDecodes(a, k[|a| + 1..], b, k[|b| + 1..]);
  }

  /** Replacing one node's keys, dropping its stale ones, keeps the table sound. */
  lemma ReplaceNode(byNode: map<string, seq<string>>, d: map<string, nat>, d': map<string, nat>, node: string, keys: seq<string>)
    requires TableSound(byNode, d) && NodeKeys(node, keys, d')
    requires forall n | n in byNode :: n == node || Apart(n, node)
    requires forall k :: k in d' <==> (k in keys || (k in d && !(node in byNode && k in byNode[node])))
    ensures TableSound(byNode[node := keys], d')
  {
    var byNode' := byNode[node := keys];
    forall n | n in byNode' ensures NodeKeys(n, byNode'[n], d') {
      if n != node {
        forall i | 0 <= i < |byNode[n]| ensures byNode[n][i] in d' {
          if node in byNode && byNode[n][i] in byNode[node] {
            var j :| 0 <= j < |byNode[node]| && byNode[node][j] == byNode[n][i];
            OneOwner(byNode, d, node, n, byNode[n][i]);
          }
        }
      }
    }
    forall k | k in d' ensures Owned(byNode', k) {
      if k in keys {
        assert k in byNode'[node];
      } else {
        var n :| n in byNode && k in byNode[n];
        assert n in byNode' && k in byNode'[n];
      }
    }
  }

  lemma OthersKeepKeys(byNode: map<string, seq<string>>, d: map<string, nat>, node: string, n: string, k: string)
    requires TableSound(byNode, d) && n in byNode && n != node && k in byNode[n]
    ensures k in d && !(node in byNode && k in byNode[node])
  {
    assert NodeKeys(n, byNode[n], d);
    if node in byNode && k in byNode[node] { OneOwner(byNode, d, node, n, k); }
  }

  lemma ForgetNode(byNode: map<string, seq<string>>, d: map<string, nat>, d': map<string, nat>, node: string)
    requires TableSound(byNode, d)
    requires forall k :: k in d' <==> k in d && !(node in byNode && k in byNode[node])
    ensures TableSound(byNode - {node}, d')
    ensures forall n, k | n in byNode && n != node && k in byNode[n] :: k in d'
  {
    var byNode' := byNode - {node};
    forall n, k | n in byNode && n != node && k in byNode[n] ensures k in d' { OthersKeepKeys(byNode, d, node, n, k); }
    forall n | n in byNode' ensures NodeKeys(n, byNode'[n], d') { assert NodeKeys(n, byNode[n], d); }
    forall k | k in d' ensures Owned(byNode', k) {
      var n :| n in byNode && k in byNode[n];
      assert n in byNode' && k in byNode'[n];
    }
  }

  lemma SyncedKeys(node: string, es: seq<Engine>, d: map<string, nat>)
    requires DistinctModels(es) && forall k | k in KeysOf(node, es) :: k in d
    ensures NodeKeys(node, KeysOf(node, es), d)
  {
    var keys := KeysOf(node, es);
    forall i | 0 <= i < |keys| ensures keys[i] in d && KeyOf(node, keys[i]) {
      assert keys[i] in keys;
      assert keys[i][|node| + 1..] == es[i].model;
    }
    forall i, j | 0 <= i < j < |keys| ensures keys[i] != keys[j] { KeysDiffer(node, es, i, j); }
  }

  /** Add one node's keys to an index under construction. */
  method IndexNode(idx: map<string, seq<nat>>, d: map<string, nat>, ghost done: set<Pair>, node: string, keys: seq<string>)
    returns (r: map<string, seq<nat>>)
    requires IsIndexOf(idx, d, done) && Injective(d) && NodeKeys(node, keys, d)
    requires forall p | p in done :: p.0 != node
    requires KeysTell(done + PairsOf(node, keys))
    ensures IsIndexOf(r, d, done + PairsOf(node, keys))
  {
    r := idx;
    ghost var pairs := done;
    assert PairsOf(node, keys[..0]) == {};
    for i := 0 to |keys|
      invariant pairs == done + PairsOf(node, keys[..i])
      invariant IsIndexOf(r, d, pairs)
    {
      var model := keys[i][|node| + 1..];
      assert PairsOf(node, keys[..i + 1]) == PairsOf(node, keys[..i]) + {(node, model)};
      assert (node, model) !in PairsOf(node, keys[..i]);
      assert keys[i] in keys;
      assert pairs + {(node, model)} <= done + PairsOf(node, keys);
      AddPair(r, d, pairs, node, model);
      r := Append(r, model, d[keys[i]]);
      pairs := pairs + {(node, model)};
    }
    assert keys[..|keys|] == keys;
  }

  /** The pairs of the nodes already taken. */
  function DonePairs(byNode: map<string, seq<string>>, rest: set<string>): set<Pair> {
    set p | p in AllPairs(byNode) && p.0 !in rest
  }

  lemma DoneGrows(byNode: map<string, seq<string>>, rest: set<string>, n: string)
    requires n in rest && n in byNode
    ensures DonePairs(byNode, rest - {n}) == DonePairs(byNode, rest) + PairsOf(n, byNode[n])
  {
    forall p ensures p in DonePairs(byNode, rest - {n}) <==> p in DonePairs(byNode, rest) + PairsOf(n, byNode[n]) {
      if p in PairsOf(n, byNode[n]) { assert p in AllPairs(byNode); }
    }
  }

  /** The index over every node, whatever order they are taken in. */
  method IndexNodes(byNode: map<string, seq<string>>, d: map<string, nat>) returns (idx: map<string, seq<nat>>)
    requires TableSound(byNode, d) && Injective(d) && KeysTell(AllPairs(byNode))
    ensures IsIndexOf(idx, d, AllPairs(byNode))
  {
    idx := map[];
    var rest := byNode.Keys;
    assert DonePairs(byNode, rest) == {};
    while rest != {}
      invariant rest <= byNode.Keys
      invariant IsIndexOf(idx, d, DonePairs(byNode, rest))
      decreases rest
    {
      var n :| n in rest;
      DoneGrows(byNode, rest, n);
      idx := IndexNode(idx, d, DonePairs(byNode, rest), n, byNode[n]);
      rest := rest - {n};
    }
    assert DonePairs(byNode, {}) == AllPairs(byNode);
  }

  lemma TableTells(byNode: map<string, seq<string>>, d: map<string, nat>)
    requires TableSound(byNode, d)
    ensures KeysTell(AllPairs(byNode))
  {
  }

  class Pool {
    var objects: Objects
    var byNode: map<string, seq<string>>
    var byModel: map<string, seq<nat>>

    /** The model index is exactly the inverse of the (node, model) table. */
    ghost predicate Valid()
      reads this
    {
      && Sound(objects)
      && TableSound(byNode, objects.dynamic)
      && IsIndexOf(byModel, objects.dynamic, AllPairs(byNode))
    }

    constructor ()
      ensures Valid() && byNode == map[]
    {
      objects, byNode, byModel := Objects([], map[]), map[], map[];
    }

    /** Rebuild the model index from the node table, the nodes taken in any order. */
    method Rebuild()
      requires Sound(objects) && TableSound(byNode, objects.dynamic)
      modifies this`byModel
      ensures Valid()
    {
      TableTells(byNode, objects.dynamic);
      byModel := IndexNodes(byNode, objects.dynamic);
    }

    /** Replace one node's engines. */
    method SyncNode(node: string, engines: seq<Engine>)
      requires Valid() && DistinctModels(engines)
      requires forall n | n in byNode :: n == node || Apart(n, node)
      modifies this
      ensures Valid()
      ensures byNode == old(byNode)[node := KeysOf(node, engines)]
      ensures OnlyLimitsMoved(old(objects.made), objects.made)
      ensures AllRefreshed(old(objects), objects, node, engines)
      ensures OthersKept(old(byNode), node, old(objects), objects)
    {
      Refresh(node, engines);
      byNode := byNode[node := KeysOf(node, engines)];
      Rebuild();
    }

    /** Bring the backends of one node up to date: the reported ones are stored, stale ones deleted. */
    method Refresh(node: string, engines: seq<Engine>)
      requires Valid() && DistinctModels(engines)
      requires forall n | n in byNode :: n == node || Apart(n, node)
      modifies this`objects
      ensures Sound(objects) && TableSound(byNode[node := KeysOf(node, engines)], objects.dynamic)
      ensures OnlyLimitsMoved(old(objects.made), objects.made)
      ensures AllRefreshed(old(objects), objects, node, engines)
      ensures OthersKept(byNode, node, old(objects), objects)
    {
      ghost var before := objects;
      UpdateAll(node, engines);
      if node in byNode {
        DropKeys(byNode[node], KeysOf(node, engines));
      }
      SyncedTable(byNode, before, objects, node, engines);
    }

    /** Create or refresh the backend of every reported engine. */
    method UpdateAll(node: string, engines: seq<Engine>)
      requires Sound(objects)
      modifies this`objects
      ensures Sound(objects) && objects == UpdateEngines(old(objects), node, engines)
    {
      for i := 0 to |engines|
        invariant Sound(objects) && objects == UpdateEngines(old(objects), node, engines[..i])
      {
        assert engines[..i + 1][..i] == engines[..i];
        objects := UpdateEngine(objects, Key(node, engines[i].model), engines[i]);
      }
      assert engines[..|engines|] == engines;
    }

    /** Delete the keys of `stale` that are not kept. */
    method DropKeys(stale: seq<string>, keep: seq<string>)
      requires Sound(objects)
      modifies this`objects
      ensures Sound(objects) && objects.made == old(objects.made)
      ensures forall k :: k in objects.dynamic <==> k in old(objects.dynamic) && (k in stale ==> k in keep)
      ensures forall k | k in objects.dynamic :: objects.dynamic[k] == old(objects).dynamic[k]
    {
      for i := 0 to |stale|
        invariant Sound(objects) && objects.made == old(objects.made)
        invariant forall k :: k in objects.dynamic <==> k in old(objects.dynamic) && (k in stale[..i] ==> k in keep)
        invariant forall k | k in objects.dynamic :: objects.dynamic[k] == old(objects).dynamic[k]
      {
        if stale[i] !in keep {
          objects := objects.(dynamic := objects.dynamic - {stale[i]});
        }
        assert stale[..i + 1] == stale[..i] + [stale[i]];
      }
      assert stale[..|stale|] == stale;
    }

    /** Forget every engine of a node that has been unreachable too long. */
    method DropNode(node: string)
      requires Valid()
      modifies this
      ensures Valid()
      ensures byNode == old(byNode) - {node} && objects.made == old(objects.made)
      ensures OthersKept(old(byNode), node, old(objects), objects)
    {
      ghost var before := objects.dynamic;
      if node in byNode {
        DropKeys(byNode[node], []);
      }
      ForgetNode(byNode, before, objects.dynamic, node);
      byNode := byNode - {node};
      Rebuild();
    }
  }

  /** What a sync leaves behind: a sound table, every reported engine refreshed, other nodes as they
      were. */
  lemma SyncedTable(byNode: map<string, seq<string>>, before: Objects, after: Objects, node: string, es: seq<Engine>)
    requires Sound(before) && Sound(after) && TableSound(byNode, before.dynamic) && DistinctModels(es)
    requires forall n | n in byNode :: n == node || Apart(n, node)
    requires var updated := UpdateEngines(before, node, es);
             && after.made == updated.made
             && (forall k :: k in after.dynamic <==>
                   k in updated.dynamic && (node in byNode && k in byNode[node] ==> k in KeysOf(node, es)))
             && (forall k | k in after.dynamic :: after.dynamic[k] == updated.dynamic[k])
    ensures TableSound(byNode[node := KeysOf(node, es)], after.dynamic)
    ensures OnlyLimitsMoved(before.made, after.made)
    ensures AllRefreshed(before, after, node, es)
    ensures OthersKept(byNode, node, before, after)
  {
    var keys, updated := KeysOf(node, es), UpdateEngines(before, node, es);
    UpdateRefreshes(before, node, es);
    SyncedKeys(node, es, after.dynamic);
    ReplaceNode(byNode, before.dynamic, after.dynamic, node, keys);
    forall i | 0 <= i < |es| ensures Refreshed(before, after, Key(node, es[i].model), es[i]) {
      assert keys[i] in keys;
      assert Refreshed(before, updated, Key(node, es[i].model), es[i]);
    }
    OthersStay(byNode, before, updated, after, node, es);
  }

  lemma OthersStay(byNode: map<string, seq<string>>, before: Objects, updated: Objects, after: Objects, node: string, es: seq<Engine>)
    requires Sound(before) && Sound(updated) && Sound(after) && TableSound(byNode, before.dynamic)
    requires forall n | n in byNode :: n == node || Apart(n, node)
    requires Touched(before, updated, KeysOf(node, es)) && after.made == updated.made
    requires forall k :: k in after.dynamic <==> k in updated.dynamic && (node in byNode && k in byNode[node] ==> k in KeysOf(node, es))
    requires forall k | k in after.dynamic :: after.dynamic[k] == updated.dynamic[k]
    ensures OthersKept(byNode, node, before, after)
  {
    forall n, k | n in byNode && n != node && k in byNode[n]
      ensures k in before.dynamic && k !in KeysOf(node, es) && !(node in byNode && k in byNode[node])
    {
      var i :| 0 <= i < |byNode[n]| && byNode[n][i] == k;
      if k in KeysOf(node, es) {
        var j :| 0 <= j < |es| && KeysOf(node, es)[j] == k;
        KeyDecodes(n, k[|n| + 1..], node, es[j].model);
      }
      if node in byNode && k in byNode[node] { OneOwner(byNode, before.dynamic, node, n, k); }
    }
  }
}

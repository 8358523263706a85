/** Structural diff of two belief arenas, by belief key. */
module Diffs {
  import opened Wrappers
  import opened Projections
  import opened Beliefs

  datatype Snapshot = Snapshot(
    id: BeliefId, key: string, value: BeliefValue, fast: real, slow: Option<real>, version: nat)

  datatype Modification = Modification(
    id: BeliefId, key: string, oldValue: BeliefValue, newValue: BeliefValue, oldFast: real, newFast: real)

  datatype Diff = Diff(
    added: seq<Snapshot>,
    removed: seq<Snapshot>,
    modified: seq<Modification>,
    confidenceDelta: map<string, (real, real)>)
  {
    predicate HasContradictions() {
      added != [] || modified != [] || removed != []
    }
  }

  type Arena = map<BeliefId, BeliefNode>
  type KeyIndex = map<string, BeliefNode>

  // ---- Beliefs by key ------------------------------------------------------------------------------

  ghost function Keys(nodes: Arena): set<string> {
    set id | id in nodes :: nodes[id].key
  }

  ghost predicate LastWithKey(nodes: Arena, id: BeliefId, key: string) {
    && id in nodes && nodes[id].key == key
    && forall other :: other in nodes && nodes[other].key == key ==> other <= id
  }

  /** The index that collecting the arena in iteration order builds: a later belief replaces an
      earlier one with the same key. */
  ghost predicate IsKeyIndex(nodes: Arena, index: KeyIndex) {
    && index.Keys == Keys(nodes)
    && forall k :: k in index ==> exists id :: LastWithKey(nodes, id, k) && index[k] == nodes[id]
  }

  lemma KeyIndexUnique(nodes: Arena, a: KeyIndex, b: KeyIndex)
    requires IsKeyIndex(nodes, a) && IsKeyIndex(nodes, b)
    ensures a == b
  {
    forall k | k in a ensures a[k] == b[k] {
      var i :| LastWithKey(nodes, i, k) && a[k] == nodes[i];
      var j :| LastWithKey(nodes, j, k) && b[k] == nodes[j];
      assert i == j;
    }
  }

  lemma {:induction false} Largest(s: set<BeliefId>) returns (m: BeliefId)
    requires s != {}
    ensures m in s && forall x :: x in s ==> x <= m
    decreases |s|
  {
    m :| m in s;
    var rest := s - {m};
    if rest != {} {
      var n := Largest(rest);
      var first := m;
      if first < n { m := n; }
      forall x | x in s ensures x <= m {
        assert x == first || x in rest;
      }
    } else {
      assert s == {m};
    }
  }

  lemma {:induction false} Least(s: set<BeliefId>) returns (m: BeliefId)
    requires s != {}
    ensures m in s && forall x :: x in s ==> m <= x
    decreases |s|
  {
    m :| m in s;
    var rest := s - {m};
    if rest != {} {
      var n := Least(rest);
      var first := m;
      if n < first { m := n; }
      forall x | x in s ensures m <= x {
        assert x == first || x in rest;
      }
    } else {
      assert s == {m};
    }
  }

  lemma LastWithKeyExists(nodes: Arena, key: string)
    requires key in Keys(nodes)
    ensures exists id :: LastWithKey(nodes, id, key)
  {
    var ids := set id | id in nodes && nodes[id].key == key;
    var one :| one in nodes && nodes[one].key == key;
    assert one in ids;
    var m := Largest(ids);
    forall other | other in nodes && nodes[other].key == key ensures other <= m {
      assert other in ids;
    }
    assert LastWithKey(nodes, m, key);
  }

  ghost function LastId(nodes: Arena, key: string): (id: BeliefId)
    requires key in Keys(nodes)
    ensures LastWithKey(nodes, id, key)
  {
    LastWithKeyExists(nodes, key);
    var id :| LastWithKey(nodes, id, key);
    id
  }

  ghost function ByKey(nodes: Arena): (index: KeyIndex)
    ensures IsKeyIndex(nodes, index)
    ensures forall k :: k in index ==> index[k].key == k
  {
    map k | k in Keys(nodes) :: nodes[LastId(nodes, k)]
  }

  method CollectByKey(nodes: Arena) returns (index: KeyIndex)
    ensures index == ByKey(nodes)
  {
    index := map[];
    var rest := nodes.Keys;
    ghost var seen: Arena := map[];
    while rest != {}
      invariant rest <= nodes.Keys
      invariant seen == map id | id in nodes && id !in rest :: nodes[id]
      invariant forall s, r :: s in seen && r in rest ==> s < r
      invariant IsKeyIndex(seen, index)
      decreases rest
    {
      ghost var least := Least(rest);
      var id: BeliefId :| id in rest && forall x :: x in rest ==> id <= x;
      ExtendKeyIndex(seen, index, id, nodes[id]);
      index := index[nodes[id].key := nodes[id]];
      seen := seen[id := nodes[id]];
      rest := rest - {id};
    }
    assert seen == nodes;
    KeyIndexUnique(nodes, index, ByKey(nodes));
  }

  lemma ExtendKeyIndex(seen: Arena, index: KeyIndex, id: BeliefId, node: BeliefNode)
    requires IsKeyIndex(seen, index)
    requires forall s :: s in seen ==> s < id
    ensures IsKeyIndex(seen[id := node], index[node.key := node])
  {
    var seen', index' := seen[id := node], index[node.key := node];
    assert Keys(seen') == Keys(seen) + {node.key} by {
      forall k | k in Keys(seen) ensures k in Keys(seen') {
        var i :| i in seen && seen[i].key == k;
        assert i in seen' && seen'[i].key == k;
      }
      assert id in seen' && seen'[id].key == node.key;
    }
    forall k | k in index'
      ensures exists i :: LastWithKey(seen', i, k) && index'[k] == seen'[i]
    {
      if k == node.key {
        assert LastWithKey(seen', id, k);
      } else {
        var i :| LastWithKey(seen, i, k) && index[k] == seen[i];
        assert LastWithKey(seen', i, k);
      }
    }
  }

  // ---- The diff as a specification ------------------------------------------------------------------

  function Abs(x: real): real { if x < 0.0 then -x else x }

  const TOLERANCE: real := 0.000001

  predicate FastChanged(a: BeliefNode, b: BeliefNode) { Abs(a.fast - b.fast) > TOLERANCE }

  predicate Changed(a: BeliefNode, b: BeliefNode) { a.value != b.value || FastChanged(a, b) }

  function Snap(n: BeliefNode, version: nat): Snapshot {
    Snapshot(n.id, n.key, n.value, n.fast, n.slow, version)
  }

  function Modify(a: BeliefNode, b: BeliefNode): Modification {
    Modification(a.id, a.key, b.value, a.value, b.fast, a.fast)
  }

  /** The keys that only the first index has. */
  ghost function OnlyIn(a: KeyIndex, b: KeyIndex): set<string> { a.Keys - b.Keys }

  ghost function ChangedKeys(a: KeyIndex, b: KeyIndex): set<string> {
    set k | k in a && k in b && Changed(a[k], b[k])
  }

  ghost function SnapsOf(a: KeyIndex, keys: set<string>, version: nat): set<Snapshot>
    requires keys <= a.Keys
  {
    set k | k in keys :: Snap(a[k], version)
  }

  ghost function ModsOf(a: KeyIndex, b: KeyIndex, keys: set<string>): set<Modification>
    requires keys <= a.Keys && keys <= b.Keys
  {
    set k | k in keys :: Modify(a[k], b[k])
  }

  ghost function DeltaOf(a: KeyIndex, b: KeyIndex, keys: set<string>): map<string, (real, real)> {
    map k | k in keys && k in a && k in b && FastChanged(a[k], b[k]) :: (b[k].fast, a[k].fast)
  }

  /** Each difference is listed once and nothing else is listed. */
  ghost predicate IsDiff(d: Diff, a: KeyIndex, va: nat, b: KeyIndex, vb: nat) {
    && multiset(d.added) == multiset(SnapsOf(a, OnlyIn(a, b), va))
    && multiset(d.removed) == multiset(SnapsOf(b, OnlyIn(b, a), vb))
    && multiset(d.modified) == multiset(ModsOf(a, b, ChangedKeys(a, b)))
    && d.confidenceDelta == DeltaOf(a, b, a.Keys)
  }

  ghost predicate Keyed(a: KeyIndex) {
    forall k :: k in a ==> a[k].key == k
  }

  /** The two states hold the same keys with the same values, and confidences within tolerance. */
  ghost predicate Agree(a: KeyIndex, b: KeyIndex) {
    a.Keys == b.Keys && forall k :: k in a ==> !Changed(a[k], b[k])
  }

  lemma InList<T>(s: seq<T>, t: set<T>)
    requires multiset(s) == multiset(t)
    ensures forall x :: x in s <==> x in t
    ensures s == [] <==> t == {}
  {
    forall x ensures x in s <==> x in t {
      assert x in multiset(s) <==> x in multiset(t);
    }
    if t != {} {
      var x :| x in t;
      assert x in multiset(t);
    }
    if s != [] {
      assert s[0] in multiset(s);
    }
  }

  /** A diff is empty, as rollback sees it, if and only if the two states agree. */
  lemma HasContradictionsIff(d: Diff, a: KeyIndex, va: nat, b: KeyIndex, vb: nat)
    requires IsDiff(d, a, va, b, vb)
    ensures d.HasContradictions() <==> !Agree(a, b)
  {
    InList(d.added, SnapsOf(a, OnlyIn(a, b), va));
    InList(d.removed, SnapsOf(b, OnlyIn(b, a), vb));
    InList(d.modified, ModsOf(a, b, ChangedKeys(a, b)));
    forall k | k in OnlyIn(a, b) ensures Snap(a[k], va) in SnapsOf(a, OnlyIn(a, b), va) {}
    forall k | k in OnlyIn(b, a) ensures Snap(b[k], vb) in SnapsOf(b, OnlyIn(b, a), vb) {}
    forall k | k in ChangedKeys(a, b)
      ensures Modify(a[k], b[k]) in ModsOf(a, b, ChangedKeys(a, b)) {}
  }

  /** What the tolerance is: a millionth, exceeded. */
  lemma ChangedIff(a: BeliefNode, b: BeliefNode)
    ensures Changed(a, b) <==> a.value != b.value || a.fast - b.fast > 0.000001 || b.fast - a.fast > 0.000001
    ensures FastChanged(a, b) <==> a.fast - b.fast > 0.000001 || b.fast - a.fast > 0.000001
  {
  }

  /** What a diff says of each key: the newer state's snapshots under added, the older one's under removed,
      and both sides of a change, the older first. */
  lemma DiffTells(d: Diff, a: KeyIndex, va: nat, b: KeyIndex, vb: nat)
    requires IsDiff(d, a, va, b, vb) && Keyed(a) && Keyed(b)
    ensures forall s :: s in d.added ==>
      s.key in a && s.key !in b && s == Snapshot(a[s.key].id, s.key, a[s.key].value, a[s.key].fast, a[s.key].slow, va)
    ensures forall s :: s in d.removed ==>
      s.key in b && s.key !in a && s == Snapshot(b[s.key].id, s.key, b[s.key].value, b[s.key].fast, b[s.key].slow, vb)
    ensures forall m :: m in d.modified ==>
      && m.key in a && m.key in b && Changed(a[m.key], b[m.key])
      && m.id == a[m.key].id && m.oldValue == b[m.key].value && m.newValue == a[m.key].value
      && m.oldFast == b[m.key].fast && m.newFast == a[m.key].fast
    ensures forall k :: k in d.confidenceDelta <==> k in a && k in b && FastChanged(a[k], b[k])
    ensures forall k :: k in d.confidenceDelta ==> d.confidenceDelta[k] == (b[k].fast, a[k].fast)
  {
    InList(d.added, SnapsOf(a, OnlyIn(a, b), va));
    InList(d.removed, SnapsOf(b, OnlyIn(b, a), vb));
    InList(d.modified, ModsOf(a, b, ChangedKeys(a, b)));
    hide FastChanged, Changed;
  }

  // ---- Patching -------------------------------------------------------------------------------------

  type View = map<string, (BeliefValue, real)>

  ghost function ViewOf(a: KeyIndex): View {
    map k | k in a :: (a[k].value, a[k].fast)
  }

  ghost function SnapKeys(l: seq<Snapshot>): set<string> { set s | s in l :: s.key }

  ghost function ModKeys(l: seq<Modification>): set<string> { set m | m in l :: m.key }

  function ApplyAdded(v: View, added: seq<Snapshot>): View {
    if added == [] then v
    else ApplyAdded(v, added[1..])[added[0].key := (added[0].value, added[0].fast)]
  }

  function ApplyModified(v: View, mods: seq<Modification>): View {
    if mods == [] then v
    else ApplyModified(v, mods[1..])[mods[0].key := (mods[0].newValue, mods[0].newFast)]
  }

  function ApplyRemoved(v: View, removed: seq<Snapshot>): View {
    if removed == [] then v else ApplyRemoved(v, removed[1..]) - {removed[0].key}
  }

  /** Replaying a diff on the older state. */
  function Patch(v: View, d: Diff): View {
    ApplyModified(ApplyAdded(ApplyRemoved(v, d.removed), d.added), d.modified)
  }

  lemma {:induction false} ApplyRemovedEffect(v: View, removed: seq<Snapshot>)
    ensures ApplyRemoved(v, removed) == v - SnapKeys(removed)
    decreases |removed|
  {
    if removed != [] {
      ApplyRemovedEffect(v, removed[1..]);
      assert removed == [removed[0]] + removed[1..];
      assert SnapKeys(removed) == {removed[0].key} + SnapKeys(removed[1..]);
    }
  }

  lemma {:induction false} AddedAt(v: View, added: seq<Snapshot>, target: View, k: string)
    requires forall s :: s in added ==> s.key in target && target[s.key] == (s.value, s.fast)
    ensures k in ApplyAdded(v, added) <==> k in v || k in SnapKeys(added)
    ensures k in ApplyAdded(v, added) ==>
      ApplyAdded(v, added)[k] == if k in SnapKeys(added) then target[k] else v[k]
    decreases |added|
  {
    if added != [] {
      var first, rest := added[0], added[1..];
      assert added == [first] + rest;
      assert first in added;
      assert forall s :: s in rest ==> s in added;
      assert k in SnapKeys(added) <==> k == first.key || k in SnapKeys(rest);
      AddedAt(v, rest, target, k);
    }
  }

  lemma {:induction false} ModifiedAt(v: View, mods: seq<Modification>, target: View, k: string)
    requires forall m :: m in mods ==> m.key in target && target[m.key] == (m.newValue, m.newFast)
    ensures k in ApplyModified(v, mods) <==> k in v || k in ModKeys(mods)
    ensures k in ApplyModified(v, mods) ==>
      ApplyModified(v, mods)[k] == if k in ModKeys(mods) then target[k] else v[k]
    decreases |mods|
  {
    if mods != [] {
      var first, rest := mods[0], mods[1..];
      assert mods == [first] + rest;
      assert first in mods;
      assert forall m :: m in rest ==> m in mods;
      assert k in ModKeys(mods) <==> k == first.key || k in ModKeys(rest);
      ModifiedAt(v, rest, target, k);
    }
  }

  /** Entries written over a view. */
  ghost function Overlay(v: View, keys: set<string>, target: View): View
    requires keys <= target.Keys
  {
    map k | k in v.Keys + keys :: if k in keys then target[k] else v[k]
  }

  lemma ApplyAddedEffect(v: View, added: seq<Snapshot>, target: View)
    requires forall s :: s in added ==> s.key in target && target[s.key] == (s.value, s.fast)
    ensures SnapKeys(added) <= target.Keys && ApplyAdded(v, added) == Overlay(v, SnapKeys(added), target)
  {
    var r := Overlay(v, SnapKeys(added), target);
    forall k ensures k in ApplyAdded(v, added) <==> k in r { AddedAt(v, added, target, k); }
    forall k | k in r ensures ApplyAdded(v, added)[k] == r[k] { AddedAt(v, added, target, k); }
  }

  lemma ApplyModifiedEffect(v: View, mods: seq<Modification>, target: View)
    requires forall m :: m in mods ==> m.key in target && target[m.key] == (m.newValue, m.newFast)
    ensures ModKeys(mods) <= target.Keys && ApplyModified(v, mods) == Overlay(v, ModKeys(mods), target)
  {
    var r := Overlay(v, ModKeys(mods), target);
    forall k ensures k in ApplyModified(v, mods) <==> k in r { ModifiedAt(v, mods, target, k); }
    forall k | k in r ensures ApplyModified(v, mods)[k] == r[k] { ModifiedAt(v, mods, target, k); }
  }

  /** A list of snapshots has exactly the keys that it was made for. */
  lemma ListedSnaps(l: seq<Snapshot>, a: KeyIndex, keys: set<string>, version: nat)
    requires Keyed(a) && keys <= a.Keys && multiset(l) == multiset(SnapsOf(a, keys, version))
    ensures SnapKeys(l) == keys
    ensures forall s :: s in l ==> s.key in a && s == Snap(a[s.key], version)
  {
    InList(l, SnapsOf(a, keys, version));
    forall k | k in keys ensures k in SnapKeys(l) {
      assert Snap(a[k], version) in SnapsOf(a, keys, version);
    }
  }

  lemma ListedMods(l: seq<Modification>, a: KeyIndex, b: KeyIndex, keys: set<string>)
    requires Keyed(a) && keys <= a.Keys && keys <= b.Keys
    requires multiset(l) == multiset(ModsOf(a, b, keys))
    ensures ModKeys(l) == keys
    ensures forall m :: m in l ==> m.key in a && m.key in b && m == Modify(a[m.key], b[m.key])
  {
    InList(l, ModsOf(a, b, keys));
    forall k | k in keys ensures k in ModKeys(l) {
      assert Modify(a[k], b[k]) in ModsOf(a, b, keys);
    }
  }

  /** The patch, computed on maps. */
  lemma PatchedMap(a: KeyIndex, b: KeyIndex, v1: View, v2: View, v3: View)
    requires v1 == ViewOf(b) - OnlyIn(b, a)
    requires v2 == Overlay(v1, OnlyIn(a, b), ViewOf(a))
    requires v3 == Overlay(v2, ChangedKeys(a, b), ViewOf(a))
    ensures v3.Keys == a.Keys
    ensures forall k :: k in a ==> v3[k].0 == a[k].value && Abs(v3[k].1 - a[k].fast) <= TOLERANCE
  {
    forall k | k in a ensures v3[k].0 == a[k].value && Abs(v3[k].1 - a[k].fast) <= TOLERANCE {
      if k in b && !Changed(a[k], b[k]) {
        assert v3[k] == (b[k].value, b[k].fast);
      }
    }
  }

  /** Diff and patch round trip: replaying the diff on the older state gives the newer one, values
      exactly and confidences up to the tolerance that the diff ignores. */
  lemma PatchRoundTrip(d: Diff, a: KeyIndex, va: nat, b: KeyIndex, vb: nat)
    requires IsDiff(d, a, va, b, vb) && Keyed(a) && Keyed(b)
    ensures
      var p := Patch(ViewOf(b), d);
      && p.Keys == a.Keys
      && forall k :: k in a ==> p[k].0 == a[k].value && Abs(p[k].1 - a[k].fast) <= TOLERANCE
  {
    var target := ViewOf(a);
    var v1 := ApplyRemoved(ViewOf(b), d.removed);
    var v2 := ApplyAdded(v1, d.added);
    var v3 := ApplyModified(v2, d.modified);
    assert v1 == ViewOf(b) - OnlyIn(b, a) by {
      ListedSnaps(d.removed, b, OnlyIn(b, a), vb);
      ApplyRemovedEffect(ViewOf(b), d.removed);
    }
    assert v2 == Overlay(v1, OnlyIn(a, b), target) by {
      ListedSnaps(d.added, a, OnlyIn(a, b), va);
      ApplyAddedEffect(v1, d.added, target);
    }
    assert v3 == Overlay(v2, ChangedKeys(a, b), target) by {
      ListedMods(d.modified, a, b, ChangedKeys(a, b));
      ApplyModifiedEffect(v2, d.modified, target);
    }
    PatchedMap(a, b, v1, v2, v3);
  }

  // ---- The loops ------------------------------------------------------------------------------------

  ghost predicate Snapped(a: KeyIndex, done: set<string>, version: nat, snaps: seq<Snapshot>) {
    done <= a.Keys && multiset(snaps) == multiset(SnapsOf(a, done, version))
  }

  lemma ListSnap(a: KeyIndex, done: set<string>, k: string, version: nat, snaps: seq<Snapshot>)
    requires Keyed(a) && k in a && k !in done && Snapped(a, done, version, snaps)
    ensures Snapped(a, done + {k}, version, snaps + [Snap(a[k], version)])
  {
    assert SnapsOf(a, done + {k}, version) == SnapsOf(a, done, version) + {Snap(a[k], version)};
    assert Snap(a[k], version) !in SnapsOf(a, done, version);
  }

  lemma ListMod(
    a: KeyIndex, b: KeyIndex, done: set<string>, k: string, mods: seq<Modification>)
    requires Keyed(a) && done <= a.Keys && done <= b.Keys && k in a && k in b && k !in done
    requires multiset(mods) == multiset(ModsOf(a, b, done))
    ensures multiset(mods + [Modify(a[k], b[k])]) == multiset(ModsOf(a, b, done + {k}))
  {
    assert ModsOf(a, b, done + {k}) == ModsOf(a, b, done) + {Modify(a[k], b[k])};
    assert Modify(a[k], b[k]) !in ModsOf(a, b, done);
  }

  lemma ListDelta(a: KeyIndex, b: KeyIndex, seen: set<string>, k: string)
    requires k in a && k !in seen
    ensures DeltaOf(a, b, seen + {k}) ==
      if k in b && FastChanged(a[k], b[k]) then DeltaOf(a, b, seen)[k := (b[k].fast, a[k].fast)]
      else DeltaOf(a, b, seen)
  {
  }

  /** Looking at one more key of the first index. */
  lemma SnapStep(
    a: KeyIndex, b: KeyIndex, rest: set<string>, k: string, version: nat, snaps: seq<Snapshot>)
    requires Keyed(a) && k in rest && rest <= a.Keys && Snapped(a, OnlyIn(a, b) - rest, version, snaps)
    ensures Snapped(a, OnlyIn(a, b) - (rest - {k}), version,
                    if k in b then snaps else snaps + [Snap(a[k], version)])
  {
    var done := OnlyIn(a, b) - rest;
    if k in b {
      assert OnlyIn(a, b) - (rest - {k}) == done;
    } else {
      assert OnlyIn(a, b) - (rest - {k}) == done + {k};
      ListSnap(a, done, k, version, snaps);
    }
  }

  method SnapshotsOnlyIn(a: KeyIndex, b: KeyIndex, version: nat) returns (snaps: seq<Snapshot>)
    requires Keyed(a)
    ensures multiset(snaps) == multiset(SnapsOf(a, OnlyIn(a, b), version))
  {
    snaps := [];
    var rest := a.Keys;
    assert OnlyIn(a, b) - rest == {};
    while rest != {}
      invariant rest <= a.Keys
      invariant Snapped(a, OnlyIn(a, b) - rest, version, snaps)
      decreases rest
    {
      hide Snapped, Keyed, OnlyIn;
      var k :| k in rest;
      SnapStep(a, b, rest, k, version, snaps);
      if k !in b {
        snaps := snaps + [Snap(a[k], version)];
      }
      rest := rest - {k};
    }
    assert OnlyIn(a, b) - rest == OnlyIn(a, b);
  }

  ghost predicate Compared(
    a: KeyIndex, b: KeyIndex, seen: set<string>,
    modified: seq<Modification>, delta: map<string, (real, real)>)
  {
    multiset(modified) == multiset(ModsOf(a, b, ChangedKeys(a, b) * seen)) && delta == DeltaOf(a, b, seen)
  }

  lemma CompareStep(
    a: KeyIndex, b: KeyIndex, seen: set<string>, k: string,
    modified: seq<Modification>, delta: map<string, (real, real)>)
    requires Keyed(a) && k in a && k !in seen && Compared(a, b, seen, modified, delta)
    ensures Compared(a, b, seen + {k},
      if k in b && Changed(a[k], b[k]) then modified + [Modify(a[k], b[k])] else modified,
      if k in b && FastChanged(a[k], b[k]) then delta[k := (b[k].fast, a[k].fast)] else delta)
  {
    var done := ChangedKeys(a, b) * seen;
    ListDelta(a, b, seen, k);
    if k in b && Changed(a[k], b[k]) {
      ListMod(a, b, done, k, modified);
      assert ChangedKeys(a, b) * (seen + {k}) == done + {k};
    } else {
      assert ChangedKeys(a, b) * (seen + {k}) == done;
    }
  }

  method CompareShared(a: KeyIndex, b: KeyIndex)
    returns (modified: seq<Modification>, delta: map<string, (real, real)>)
    requires Keyed(a)
    ensures Compared(a, b, a.Keys, modified, delta)
  {
    modified, delta := [], map[];
    var rest := a.Keys;
    assert a.Keys - rest == {};
    while rest != {}
      invariant rest <= a.Keys
      invariant Compared(a, b, a.Keys - rest, modified, delta)
      decreases rest
    {
      var k :| k in rest;
      CompareStep(a, b, a.Keys - rest, k, modified, delta);
      assert a.Keys - (rest - {k}) == a.Keys - rest + {k};
      if k in b {
        var valueChanged := a[k].value != b[k].value;
        var confChanged := Abs(a[k].fast - b[k].fast) > TOLERANCE;
        if valueChanged || confChanged {
          modified := modified + [Modify(a[k], b[k])];
        }
        if confChanged {
          delta := delta[k := (b[k].fast, a[k].fast)];
        }
      }
      rest := rest - {k};
    }
    assert a.Keys - rest == a.Keys;
  }

  method ComputeDiff(nodes: Arena, version: nat, other: Arena, otherVersion: nat) returns (d: Diff)
    ensures IsDiff(d, ByKey(nodes), version, ByKey(other), otherVersion)
    ensures d.HasContradictions() <==> !Agree(ByKey(nodes), ByKey(other))
  {
    var a := CollectByKey(nodes);
    var b := CollectByKey(other);
    var added := SnapshotsOnlyIn(a, b, version);
    var removed := SnapshotsOnlyIn(b, a, otherVersion);
    var modified, delta := CompareShared(a, b);
    d := Diff(added, removed, modified, delta);
    assert ChangedKeys(a, b) * a.Keys == ChangedKeys(a, b);
    HasContradictionsIff(d, a, version, b, otherVersion);
  }
}

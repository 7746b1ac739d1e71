/** Collecting, checking and applying config overrides (torchtitan/config/override.py). */
module Overrides {
  import opened Wrappers
  import opened ConfigTree
  import opened Configurable

  /** A registered override with the kwargs of its entry bound: the classes it targets, one class if it is exact,
      its fqns selector, and its factory, a function of the matched config. */
  datatype Override = Override(name: string, cls: Class, exact: Option<nat>, selects: string -> bool, factory: Tree -> Tree)

  datatype Claim = Claim(ov: Override, hit: Hit)

  predicate Wanted(s: Store, ov: Override, h: Hit)
    requires h.cfg in s
  {
    (ov.exact.Some? ==> s[h.cfg].kind == ConfigKind(ov.exact.value)) && ov.selects(h.fqn)
  }

  predicate InStore(s: Store, hits: seq<Hit>) {
    forall i | 0 <= i < |hits| :: hits[i].cfg in s
  }

  function Chosen(s: Store, ov: Override, hits: seq<Hit>): seq<Claim>
    requires InStore(s, hits)
  {
    if hits == [] then []
    else
      var last := hits[|hits| - 1];
      Chosen(s, ov, hits[..|hits| - 1]) + if Wanted(s, ov, last) then [Claim(ov, last)] else []
  }

  function HitsOf(s: Store, root: nat, ov: Override): (hits: seq<Hit>)
    requires Sound(s) && root in s
    ensures InStore(s, hits)
  {
    TraversalLocated(s, ov.cls, false, root);
    Traversal(s, ov.cls, false, root)
  }

  function AllClaims(s: Store, root: nat, ovs: seq<Override>): seq<Claim>
    requires Sound(s) && root in s
  {
    if ovs == [] then []
    else
      var ov := ovs[|ovs| - 1];
      AllClaims(s, root, ovs[..|ovs| - 1]) + Chosen(s, ov, HitsOf(s, root, ov))
  }

  /** The hits an override claims. */
  method Choose(s: Store, ov: Override, hits: seq<Hit>) returns (claims: seq<Claim>)
    requires InStore(s, hits)
    ensures claims == Chosen(s, ov, hits)
  {
    claims := [];
    for k := 0 to |hits|
      invariant InStore(s, hits[..k]) && claims == Chosen(s, ov, hits[..k])
    {
      var h := hits[k];
      assert hits[..k + 1][..k] == hits[..k];
      if ov.exact.Some? && s[h.cfg].kind != ConfigKind(ov.exact.value) {
        continue;
      }
      if ov.selects(h.fqn) {
        claims := claims + [Claim(ov, h)];
      }
    }
    assert hits[..|hits|] == hits;
  }

  method CollectClaims(s: Store, root: nat, ovs: seq<Override>) returns (claims: seq<Claim>)
    requires Sound(s) && NamedStore(s) && root in s
    ensures claims == AllClaims(s, root, ovs)
  {
    claims := [];
    for i := 0 to |ovs|
      invariant claims == AllClaims(s, root, ovs[..i])
    {
      var hits := Traverse(s, ovs[i].cls, false, root);
      assert hits == HitsOf(s, root, ovs[i]);
      var chosen := Choose(s, ovs[i], hits);
      claims := claims + chosen;
      assert ovs[..i + 1][..i] == ovs[..i];
    }
    assert ovs[..|ovs|] == ovs;
  }

  lemma {:induction false} InChosen(s: Store, ov: Override, hits: seq<Hit>, c: Claim)
    requires InStore(s, hits)
    ensures c in Chosen(s, ov, hits) <==> c.ov == ov && c.hit in hits && c.hit.cfg in s && Wanted(s, ov, c.hit)
  {
    if hits != [] {
      var n := |hits| - 1;
      InChosen(s, ov, hits[..n], c);
      assert hits == hits[..n] + [hits[n]];
    }
  }

  lemma {:induction false} InAllClaims(s: Store, root: nat, ovs: seq<Override>, c: Claim)
    requires Sound(s) && root in s
    ensures c in AllClaims(s, root, ovs) <==>
      c.ov in ovs && c.hit in HitsOf(s, root, c.ov) && c.hit.cfg in s && Wanted(s, c.ov, c.hit)
  {
    hide Wanted, HitsOf;
    if ovs != [] {
      var n := |ovs| - 1;
      InAllClaims(s, root, ovs[..n], c);
      InChosen(s, ovs[n], HitsOf(s, root, ovs[n]), c);
      assert ovs == ovs[..n] + [ovs[n]];
    }
  }

  /** A config is claimed by an override exactly when it is of the target class, or of that very class for an exact
      override, its dotted name is selected, and its path passes no other config of the class and enters no list in a
      list. */
  lemma ClaimedExactly(s: Store, root: nat, ovs: seq<Override>, c: Claim)
    requires Sound(s) && root in s
    ensures c in AllClaims(s, root, ovs) <==>
      && c.ov in ovs && Located(s, root, c.hit) && IsInstance(s[c.hit.cfg].kind, c.ov.cls)
      && !Blocked(s, root, c.hit.path) && NoneAbove(s, c.ov.cls, root, c.hit.path)
      && (c.ov.exact.Some? ==> s[c.hit.cfg].kind == ConfigKind(c.ov.exact.value))
      && c.ov.selects(Fqn(c.hit.path))
  {
    hide Fqn, Blocked, NoneAbove, Traversal, AllClaims;
    InAllClaims(s, root, ovs, c);
    TraversalExact(s, c.ov.cls, false, root, c.hit);
  }

  // ---------- conflicts ----------

  predicate Clash(a: Claim, b: Claim) {
    a.ov.name != b.ov.name && (a.hit.slot == b.hit.slot || StartsWith(b.hit.fqn, a.hit.fqn + "."))
  }

  predicate NoConflict(claims: seq<Claim>) {
    forall i, j | 0 <= i < |claims| && 0 <= j < |claims| :: !Clash(claims[i], claims[j])
  }

  datatype OverrideError = SameNode | NestedNodes | RootClaimed

  method CheckSameNode(claims: seq<Claim>) returns (error: Option<OverrideError>)
    ensures error.Some? ==> error.value == SameNode
    ensures error.None? <==> forall i, j | 0 <= i < j < |claims| ::
      claims[i].hit.slot == claims[j].hit.slot ==> claims[i].ov.name == claims[j].ov.name
  {
    var byNode: map<Option<(nat, Key)>, string> := map[];
    for i := 0 to |claims|
      invariant forall k | 0 <= k < i :: claims[k].hit.slot in byNode && byNode[claims[k].hit.slot] == claims[k].ov.name
      invariant forall slot | slot in byNode :: exists k :: 0 <= k < i && claims[k].hit.slot == slot
    {
      var c := claims[i];
      if c.hit.slot in byNode && byNode[c.hit.slot] != c.ov.name {
        return Some(SameNode);
      }
      byNode := byNode[c.hit.slot := c.ov.name];
    }
    error := None;
  }

  /** One path is the other, or passes through it; the root, which has no name, contains nothing by name. */
  predicate Nested(p: Path, q: Path) {
    p == q || (p != [] && p < q)
  }

  /** Claims of different overrides are neither on one node nor on a node and one below it. */
  ghost predicate Unrelated(claims: seq<Claim>) {
    forall c, d | c in claims && d in claims && c.ov.name != d.ov.name :: !Nested(c.hit.path, d.hit.path)
  }

  lemma SameSlotSamePath(s: Store, root: nat, g: Hit, h: Hit)
    requires Sound(s) && root in s && TreeShaped(s, root) && Located(s, root, g) && Located(s, root, h)
    ensures g.slot == h.slot <==> g.path == h.path
  {
    hide Fqn, TreeShaped, Follow, Sound;
    if g.path != [] && h.path != [] && g.slot == h.slot {
      var p, q := g.path, h.path;
      OnePath(s, root, p[..|p| - 1], q[..|q| - 1]);
      assert p == p[..|p| - 1] + [p[|p| - 1]] && q == q[..|q| - 1] + [q[|q| - 1]];
    }
  }

  lemma OnePath(s: Store, root: nat, p: Path, q: Path)
    requires Sound(s) && root in s && TreeShaped(s, root) && Follow(s, root, p).Some? && Follow(s, root, p) == Follow(s, root, q)
    ensures p == q
  {
  }

  lemma {:induction false} NoLeadingDot(q: Path)
    requires Names(q)
    ensures !StartsWith(Fqn(q), ".")
  {
    if q != [] {
      TextOf(q[0]);
      FqnIsFirstAndTail(q);
      assert Fqn(q)[0] == Text(q[0])[0];
    }
  }

  /** Slots and dotted names tell exactly the paths: claims of different overrides clash when they are nested, and only
      then. */
  lemma ClashIsNesting(s: Store, root: nat, c: Claim, d: Claim)
    requires Sound(s) && NamedStore(s) && root in s && TreeShaped(s, root)
    requires Located(s, root, c.hit) && Located(s, root, d.hit) && c.ov.name != d.ov.name
    ensures Clash(c, d) <==> Nested(c.hit.path, d.hit.path)
  {
    hide Fqn, StartsWith, TreeShaped;
    var p, q := c.hit.path, d.hit.path;
    FollowNames(s, root, p);
    FollowNames(s, root, q);
    SameSlotSamePath(s, root, c.hit, d.hit);
    if p == [] {
      NoLeadingDot(q);
      RootName();
      assert "" + "." == ".";
    } else {
      PrefixIsAncestor(p, q);
    }
  }

  lemma NoConflictIsUnrelated(s: Store, root: nat, claims: seq<Claim>)
    requires Sound(s) && NamedStore(s) && root in s && TreeShaped(s, root) && Reachable(s, root, claims)
    ensures NoConflict(claims) <==> Unrelated(claims)
  {
    hide Clash, Nested, Located, TreeShaped, Sound;
    forall c, d | c in claims && d in claims && c.ov.name != d.ov.name ensures Clash(c, d) <==> Nested(c.hit.path, d.hit.path) {
      ClashIsNesting(s, root, c, d);
    }
    if NoConflict(claims) {
      forall c, d | c in claims && d in claims && c.ov.name != d.ov.name ensures !Nested(c.hit.path, d.hit.path) {
        var i :| 0 <= i < |claims| && claims[i] == c;
        var j :| 0 <= j < |claims| && claims[j] == d;
        assert !Clash(claims[i], claims[j]);
      }
    } else {
      var i, j :| 0 <= i < |claims| && 0 <= j < |claims| && Clash(claims[i], claims[j]);
      ClashNames(claims[i], claims[j]);
      assert claims[i] in claims && claims[j] in claims;
    }
  }

  lemma ClashNames(c: Claim, d: Claim)
    requires Clash(c, d)
    ensures c.ov.name != d.ov.name
  {
  }

  ghost predicate Reachable(s: Store, root: nat, claims: seq<Claim>)
    requires Sound(s) && root in s
  {
    forall c | c in claims :: Located(s, root, c.hit)
  }

  /** _check_node_conflicts: it passes exactly when claims of different overrides are unrelated in the tree. */
  method CheckNodeConflicts(claims: seq<Claim>, ghost s: Store, ghost root: nat) returns (error: Option<OverrideError>)
    requires Sound(s) && NamedStore(s) && root in s && TreeShaped(s, root) && Reachable(s, root, claims)
    ensures error.None? <==> Unrelated(claims)
    ensures error.None? <==> NoConflict(claims)
    ensures error == Some(SameNode) <==>
      exists c, d :: c in claims && d in claims && c.ov.name != d.ov.name && c.hit.path == d.hit.path
  {
    NoConflictIsUnrelated(s, root, claims);
    error := FindConflict(claims);
    forall c, d | c in claims && d in claims ensures c.hit.slot == d.hit.slot <==> c.hit.path == d.hit.path {
      SameSlotSamePath(s, root, c.hit, d.hit);
    }
  }

  /** The two loops, by slot and by dotted name. */
  method FindConflict(claims: seq<Claim>) returns (error: Option<OverrideError>)
    ensures error.None? <==> NoConflict(claims)
    ensures error == Some(SameNode) <==>
      exists c, d :: c in claims && d in claims && c.ov.name != d.ov.name && c.hit.slot == d.hit.slot
  {
    error := CheckSameNode(claims);
    if error.Some? {
      ghost var i, j :| 0 <= i < j < |claims| &&
        claims[i].hit.slot == claims[j].hit.slot && claims[i].ov.name != claims[j].ov.name;
      assert Clash(claims[i], claims[j]);
      return;
    }
    for i := 0 to |claims|
      invariant forall k, j | 0 <= k < i && 0 <= j < |claims| :: !Clash(claims[k], claims[j])
    {
      for j := 0 to |claims|
        invariant forall k | 0 <= k < j :: !Clash(claims[i], claims[k])
      {
        var a, b := claims[i], claims[j];
        if a.ov.name == b.ov.name {
          continue;
        }
        if a.hit.fqn + "." <= b.hit.fqn {
          assert Clash(a, b);
          return Some(NestedNodes);
        }
      }
    }
  }

  predicate DistinctNames(ovs: seq<Override>) {
    forall i, j | 0 <= i < j < |ovs| :: ovs[i].name != ovs[j].name
  }

  predicate ClaimsApart(claims: seq<Claim>) {
    forall i, j | 0 <= i < j < |claims| :: Apart(claims[i].hit.path, claims[j].hit.path)
  }

  predicate NoRoot(claims: seq<Claim>) {
    forall i | 0 <= i < |claims| :: claims[i].hit.slot.Some?
  }

  lemma {:induction false} ChosenOf(s: Store, root: nat, ov: Override, hits: seq<Hit>)
    requires Sound(s) && root in s && InStore(s, hits) && PairwiseApart(hits)
    requires forall h | h in hits :: Located(s, root, h)
    ensures ClaimsApart(Chosen(s, ov, hits))
    ensures forall c | c in Chosen(s, ov, hits) :: c.ov == ov && c.hit in hits && Located(s, root, c.hit)
  {
    if hits != [] {
      var n := |hits| - 1;
      ChosenOf(s, root, ov, hits[..n]);
      var before := Chosen(s, ov, hits[..n]);
      forall i | 0 <= i < |before| ensures Apart(before[i].hit.path, hits[n].path) {
        assert before[i] in before;
        var k :| 0 <= k < n && hits[k] == before[i].hit;
      }
    }
  }

  /** Two claims of different overrides that do not clash are at unrelated places. */
  lemma NoClashApart(s: Store, root: nat, c: Claim, d: Claim)
    requires Sound(s) && NamedStore(s) && root in s && Located(s, root, c.hit) && Located(s, root, d.hit)
    requires c.hit.slot.Some? && d.hit.slot.Some? && c.ov.name != d.ov.name && !Clash(c, d) && !Clash(d, c)
    ensures Apart(c.hit.path, d.hit.path)
  {
    var p, q := c.hit.path, d.hit.path;
    FollowNames(s, root, p);
    FollowNames(s, root, q);
    PrefixIsAncestor(p, q);
    PrefixIsAncestor(q, p);
    assert p != q;
    assert p <= q ==> ProperPrefix(p, q);
    assert q <= p ==> ProperPrefix(q, p);
  }

  lemma ConflictParts(before: seq<Claim>, now: seq<Claim>)
    requires NoConflict(before + now) && NoRoot(before + now)
    ensures NoConflict(before) && NoRoot(before) && NoRoot(now)
    ensures forall c, d | c in before && d in now :: !Clash(c, d) && !Clash(d, c)
  {
    var all := before + now;
    assert forall i | 0 <= i < |before| :: all[i] == before[i];
    assert forall i | 0 <= i < |now| :: all[|before| + i] == now[i];
    assert forall c | c in before :: c in all;
    assert forall c | c in now :: c in all;
    assert forall c, d | c in all && d in all :: !Clash(c, d);
  }

  lemma ApartParts(before: seq<Claim>, now: seq<Claim>)
    requires ClaimsApart(before) && ClaimsApart(now)
    requires forall c, d | c in before && d in now :: Apart(c.hit.path, d.hit.path)
    ensures ClaimsApart(before + now)
  {
    var all := before + now;
    forall i, j | 0 <= i < j < |all| ensures Apart(all[i].hit.path, all[j].hit.path) {
      if i < |before| <= j {
        assert all[i] in before && all[j] in now;
      }
    }
  }

  /** Claims that pass the check are pairwise at unrelated places: conflicts between overrides are caught by slot and
      dotted name, and one override alone never nests. */
  lemma {:induction false} PassedClaimsApart(s: Store, root: nat, ovs: seq<Override>)
    requires Sound(s) && root in s && NamedStore(s) && DistinctNames(ovs)
    requires NoConflict(AllClaims(s, root, ovs)) && NoRoot(AllClaims(s, root, ovs))
    ensures ClaimsApart(AllClaims(s, root, ovs))
    ensures forall c | c in AllClaims(s, root, ovs) :: Located(s, root, c.hit) && exists i | 0 <= i < |ovs| :: c.ov == ovs[i]
  {
    if ovs != [] {
      var n := |ovs| - 1;
      var before, ov := AllClaims(s, root, ovs[..n]), ovs[n];
      var hits := HitsOf(s, root, ov);
      var now := Chosen(s, ov, hits);
      assert AllClaims(s, root, ovs) == before + now;
      ConflictParts(before, now);
      PassedClaimsApart(s, root, ovs[..n]);
      TraversalApart(s, ov.cls, root);
      TraversalLocated(s, ov.cls, false, root);
      ChosenOf(s, root, ov, hits);
      forall c, d | c in before && d in now ensures Apart(c.hit.path, d.hit.path) {
        assert NoRoot(before) && NoRoot(now);
        NoClashApart(s, root, c, d);
      }
      ApartParts(before, now);
    }
  }

  // ---------- application ----------

  /** One iteration of the loop over claims. */
  function ApplyOne(s: Store, c: Claim): Store
    requires Sound(s) && c.hit.slot.Some? && c.hit.slot.value.0 in s && c.hit.cfg in s
  {
    SetSlot(s, c.hit.slot.value.0, c.hit.slot.value.1, New(c.ov.factory(Unfold(s, Ref(c.hit.cfg)))))
  }

  /** The node at `path` replaced by pick(path) of it, topmost first. */
  function Replace(t: Tree, path: Path, pick: Path -> Option<Tree -> Tree>): Tree
    decreases t
  {
    match t
    case Leaf(_) => t
    case Node(kind, kids) =>
      Node(kind, seq(|kids|, j requires 0 <= j < |kids| =>
        var here := path + [kids[j].0];
        (kids[j].0, match pick(here) case Some(f) => f(kids[j].1) case None => Replace(kids[j].1, here, pick))))
  }

  /** The factory of the claim at a path. */
  function Pick(claims: seq<Claim>): Path -> Option<Tree -> Tree> {
    path => PickFrom(claims, path)
  }

  function PickFrom(claims: seq<Claim>, path: Path): Option<Tree -> Tree> {
    if claims == [] then None
    else if claims[|claims| - 1].hit.path == path then Some(claims[|claims| - 1].ov.factory)
    else PickFrom(claims[..|claims| - 1], path)
  }

  lemma {:induction false} PickFromIs(claims: seq<Claim>, path: Path)
    ensures (forall c | c in claims :: c.hit.path != path) ==> PickFrom(claims, path) == None
    ensures ClaimsApart(claims) ==>
      forall c | c in claims && c.hit.path == path :: PickFrom(claims, path) == Some(c.ov.factory)
  {
    if claims != [] {
      var n := |claims| - 1;
      PickFromIs(claims[..n], path);
      if ClaimsApart(claims) {
        forall c | c in claims && c.hit.path == path ensures PickFrom(claims, path) == Some(c.ov.factory) {
          if claims[n].hit.path == path {
            assert forall i | 0 <= i < n :: Apart(claims[i].hit.path, claims[n].hit.path);
          } else {
            assert c in claims[..n];
          }
        }
      }
    }
  }

  /** Claims found in s at the places their paths say. */
  ghost predicate Grounded(s: Store, root: nat, claims: seq<Claim>)
    requires Sound(s) && root in s
  {
    forall c | c in claims :: Located(s, root, c.hit) && c.hit.slot.Some?
  }

  /** What a claim writes: its factory of the original node. */
  function Replacement(s: Store, c: Claim): Tree
    requires Sound(s) && c.hit.cfg in s
  {
    c.ov.factory(Unfold(s, Ref(c.hit.cfg)))
  }

  /** The writes of some claims, as a set of slots with their new configs. */
  ghost predicate WritesOf(s: Store, done: seq<Claim>, w: Writes)
    requires Sound(s)
  {
    && (forall c | c in done :: c.hit.slot.Some? && c.hit.slot.value in w && c.hit.cfg in s && w[c.hit.slot.value] == Replacement(s, c))
    && (forall slot | slot in w :: exists c :: c in done && c.hit.slot == Some(slot))
  }

  /** The container of an unrelated claim is not below c's node. */
  lemma NotBelow(s: Store, root: nat, c: Claim, d: Claim, p: Path)
    requires Sound(s) && root in s && TreeShaped(s, root)
    requires Located(s, root, c.hit) && Located(s, root, d.hit) && d.hit.slot.Some?
    requires Apart(c.hit.path, d.hit.path)
    ensures Follow(s, c.hit.cfg, p) != Some(d.hit.slot.value.0)
  {
    if Follow(s, c.hit.cfg, p).Some? {
      FollowAppend(s, root, c.hit.path, p);
    }
  }

  lemma SlotsDiffer(s: Store, root: nat, c: Claim, d: Claim)
    requires Sound(s) && root in s && TreeShaped(s, root)
    requires Located(s, root, c.hit) && Located(s, root, d.hit) && c.hit.slot.Some? && d.hit.slot.Some?
    requires Apart(c.hit.path, d.hit.path)
    ensures c.hit.slot != d.hit.slot
  {
    var p, q := c.hit.path, d.hit.path;
    assert p == p[..|p| - 1] + [p[|p| - 1]] && q == q[..|q| - 1] + [q[|q| - 1]];
  }

  /** The node of an unrelated claim still unfolds to the original node. */
  lemma NodeUntouched(s: Store, root: nat, done: seq<Claim>, w: Writes, c: Claim)
    requires Sound(s) && root in s && TreeShaped(s, root) && Grounded(s, root, done + [c]) && WritesOf(s, done, w)
    requires forall d | d in done :: Apart(c.hit.path, d.hit.path)
    ensures Sound(With(s, w)) && c.hit.cfg in With(s, w) && c.hit.cfg in s
    ensures Unfold(With(s, w), Ref(c.hit.cfg)) == Unfold(s, Ref(c.hit.cfg))
  {
    assert c in done + [c] && Located(s, root, c.hit);
    assert forall d | d in done :: d in done + [c];
    forall slot, p {:trigger slot in w, Follow(s, c.hit.cfg, p)} | slot in w
      ensures Follow(s, c.hit.cfg, p) != Some(slot.0)
    {
      var d :| d in done && d.hit.slot == Some(slot);
      NotBelow(s, root, c, d, p);
    }
    WithAgrees(s, w, c.hit.cfg);
    WithSound(s, w);
    AgreeUnfold(s, With(s, w), c.hit.cfg);
  }

  /** One more claim, whatever was applied before it. */
  lemma ApplyStep(s: Store, root: nat, done: seq<Claim>, w: Writes, c: Claim)
    requires Sound(s) && root in s && TreeShaped(s, root) && Grounded(s, root, done + [c]) && WritesOf(s, done, w)
    requires forall d | d in done :: Apart(c.hit.path, d.hit.path)
    ensures var now := With(s, w); Sound(now) && c.hit.slot.Some? && c.hit.slot.value.0 in now && c.hit.cfg in now
    ensures c.hit.cfg in s && ApplyOne(With(s, w), c) == With(s, w[c.hit.slot.value := Replacement(s, c)])
    ensures WritesOf(s, done + [c], w[c.hit.slot.value := Replacement(s, c)])
  {
    NodeUntouched(s, root, done, w, c);
    assert c in done + [c] && Located(s, root, c.hit);
    forall d | d in done ensures d.hit.slot != c.hit.slot {
      assert d in done + [c];
      SlotsDiffer(s, root, c, d);
    }
    WriteNext(s, w, c.hit.slot.value.0, c.hit.slot.value.1, Replacement(s, c));
    WithSound(s, w);
    AddWrite(s, done, w, c);
  }

  lemma AddWrite(s: Store, done: seq<Claim>, w: Writes, c: Claim)
    requires Sound(s) && WritesOf(s, done, w) && c.hit.slot.Some? && c.hit.cfg in s
    requires forall d | d in done :: d.hit.slot != c.hit.slot
    ensures WritesOf(s, done + [c], w[c.hit.slot.value := Replacement(s, c)])
  {
    var next := w[c.hit.slot.value := Replacement(s, c)];
    assert c in done + [c];
    forall slot | slot in next ensures exists d :: d in done + [c] && d.hit.slot == Some(slot) {
      if slot in w {
        var d :| d in done && d.hit.slot == Some(slot);
        assert d in done + [c];
      }
    }
  }

  // ---------- all at once ----------

  lemma {:induction false} UnfoldReplace(s: Store, root: nat, claims: seq<Claim>, w: Writes, id: nat, path: Path)
    requires Sound(s) && root in s && TreeShaped(s, root) && Pristine(s)
    requires ClaimsApart(claims) && Grounded(s, root, claims) && WritesOf(s, claims, w)
    requires Follow(s, root, path) == Some(id)
    ensures Sound(With(s, w)) && id in With(s, w)
    ensures Unfold(With(s, w), Ref(id)) == Replace(Unfold(s, Ref(id)), path, Pick(claims))
    decreases id, 1
  {
    WithSound(s, w);
    var slots, now, pick, t := s[id].slots, With(s, w), Pick(claims), Unfold(s, Ref(id));
    forall j | 0 <= j < |slots| ensures Unfold(now, now[id].slots[j].1) == Replace(t, path, pick).kids[j].1 {
      UnfoldReplaceKid(s, root, claims, w, id, path, j);
    }
    assert Unfold(now, Ref(id)).kids == Replace(t, path, pick).kids;
  }

  lemma {:induction false} UnfoldReplaceKid(s: Store, root: nat, claims: seq<Claim>, w: Writes, id: nat, path: Path, j: nat)
    requires Sound(s) && root in s && TreeShaped(s, root) && Pristine(s) && Sound(With(s, w))
    requires ClaimsApart(claims) && Grounded(s, root, claims) && WritesOf(s, claims, w)
    requires Follow(s, root, path) == Some(id) && id in s && j < |s[id].slots|
    ensures Holds(With(s, w), With(s, w)[id].slots[j].1)
    ensures var (key, v) := s[id].slots[j]; var here := path + [key];
            Unfold(With(s, w), With(s, w)[id].slots[j].1) ==
            match PickFrom(claims, here) case Some(f) => f(Unfold(s, v)) case None => Replace(Unfold(s, v), here, Pick(claims))
    decreases id, 0
  {
    hide TreeShaped, Located, KeysDistinct;
    var (key, v) := s[id].slots[j];
    var here := path + [key];
    forall c | c in claims
      ensures c.hit.slot == Some((id, key)) <==> c.hit.path == here
      ensures c.hit.path == here ==> v == Ref(c.hit.cfg)
    {
      SlotOfPath(s, root, c.hit, id, path, j);
    }
    PickFromIs(claims, here);
    if c :| c in claims && c.hit.path == here {
      assert With(s, w)[id].slots[j].1 == New(Replacement(s, c));
    } else {
      assert (id, key) !in w;
      if v.Ref? {
        FollowStep(s, root, path, j);
        UnfoldReplace(s, root, claims, w, v.id, here);
      }
    }
  }

  // ---------- what the replaced tree holds ----------

  lemma ReplaceKid(t: Tree, base: Path, pick: Path -> Option<Tree -> Tree>, j: nat)
    requires t.Node? && j < |t.kids|
    ensures var u, here := Replace(t, base, pick), base + [t.kids[j].0];
      u.Node? && |u.kids| == |t.kids| && (forall i | 0 <= i < |t.kids| :: u.kids[i].0 == t.kids[i].0) &&
      u.kids[j].1 == match pick(here) case Some(f) => f(t.kids[j].1) case None => Replace(t.kids[j].1, here, pick)
  {
  }

  /** Where nothing above is replaced, a path leads to the factory's config, or to the old node with its parts replaced. */
  lemma {:induction false} ReplaceAt(t: Tree, base: Path, pick: Path -> Option<Tree -> Tree>, path: Path)
    requires TreeAt(t, path).Some? && forall i | 0 < i < |path| :: pick(base + path[..i]).None?
    ensures TreeAt(Replace(t, base, pick), path) ==
      if path != [] && pick(base + path).Some? then Some(pick(base + path).value(TreeAt(t, path).value))
      else Some(Replace(TreeAt(t, path).value, base + path, pick))
    decreases |path|
  {
    hide Replace;
    if path == [] {
      assert base + path == base;
    } else {
      var j, rest := FirstKid(t.kids, path[0]), path[1..];
      var u, here := Replace(t, base, pick), base + [path[0]];
      ReplaceKid(t, base, pick, j);
      FirstKidKept(t.kids, u.kids, path[0]);
      if rest == [] {
        assert base + path == here;
      } else {
        assert base + path[..1] == here && pick(here).None?;
        forall i | 0 < i < |rest| ensures pick(here + rest[..i]).None? {
          assert here + rest[..i] == base + path[..i + 1];
        }
        ReplaceAt(t.kids[j].1, here, pick, rest);
        assert here + rest == base + path;
      }
    }
  }

  /** The kind and the keys of a node. */
  predicate SameNodeAs(t: Tree, u: Tree) {
    if t.Leaf? then u == t
    else u.Node? && u.kind == t.kind && |u.kids| == |t.kids| && forall j | 0 <= j < |t.kids| :: u.kids[j].0 == t.kids[j].0
  }

  /** In the new tree every claimed path leads to the factory's config for the old node, and a path that meets no claimed
      one leads to a node like the old one. */
  ghost predicate IsReplaced(claims: seq<Claim>, t: Tree, u: Tree) {
    && (forall c | c in claims :: TreeAt(t, c.hit.path).Some? &&
          TreeAt(u, c.hit.path) == Some(c.ov.factory(TreeAt(t, c.hit.path).value)))
    && (forall path {:trigger TreeAt(t, path)} | TreeAt(t, path).Some? && (forall c | c in claims :: !(c.hit.path <= path)) ::
          TreeAt(u, path).Some? && SameNodeAs(TreeAt(t, path).value, TreeAt(u, path).value))
  }

  lemma {:induction false} TreeAtFollow(s: Store, id: nat, path: Path)
    requires Sound(s) && id in s && Follow(s, id, path).Some?
    ensures TreeAt(Unfold(s, Ref(id)), path) == Some(Unfold(s, Ref(Follow(s, id, path).value)))
  {
    if path != [] {
      var j := Find(s[id].slots, path[0]);
      var kids := Unfold(s, Ref(id)).kids;
      assert forall i | 0 <= i < |kids| :: kids[i].0 == s[id].slots[i].0;
      assert FirstKid(kids, path[0]) == j;
      TreeAtFollow(s, s[id].slots[j].1.id, path[1..]);
    }
  }

  lemma ReplacedThere(t: Tree, claims: seq<Claim>, path: Path)
    requires TreeAt(t, path).Some? && ClaimsApart(claims)
    requires forall c | c in claims :: !(c.hit.path < path) && c.hit.path != []
    ensures forall c | c in claims && c.hit.path == path ::
      TreeAt(Replace(t, [], Pick(claims)), path) == Some(c.ov.factory(TreeAt(t, path).value))
    ensures (forall c | c in claims :: c.hit.path != path) ==>
      TreeAt(Replace(t, [], Pick(claims)), path) == Some(Replace(TreeAt(t, path).value, path, Pick(claims)))
  {
    var pick := Pick(claims);
    forall i | 0 <= i <= |path| ensures i < |path| ==> pick([] + path[..i]).None? {
      assert [] + path[..i] == path[..i];
      PickFromIs(claims, path[..i]);
    }
    assert [] + path == path;
    PickFromIs(claims, path);
    ReplaceAt(t, [], pick, path);
  }

  lemma ReplaceIsReplaced(s: Store, root: nat, claims: seq<Claim>)
    requires Sound(s) && root in s && ClaimsApart(claims) && Grounded(s, root, claims)
    ensures IsReplaced(claims, Unfold(s, Ref(root)), Replace(Unfold(s, Ref(root)), [], Pick(claims)))
  {
    hide Fqn, Replace, Pick, Unfold, ClaimsApart;
    var t := Unfold(s, Ref(root));
    forall c | c in claims
      ensures TreeAt(t, c.hit.path).Some?
      ensures TreeAt(Replace(t, [], Pick(claims)), c.hit.path) == Some(c.ov.factory(TreeAt(t, c.hit.path).value))
    {
      assert Located(s, root, c.hit);
      TreeAtFollow(s, root, c.hit.path);
      NotInside(claims, c);
      ReplacedThere(t, claims, c.hit.path);
    }
    forall path {:trigger TreeAt(t, path)} | TreeAt(t, path).Some? && (forall c | c in claims :: !(c.hit.path <= path))
      ensures TreeAt(Replace(t, [], Pick(claims)), path).Some?
      ensures SameNodeAs(TreeAt(t, path).value, TreeAt(Replace(t, [], Pick(claims)), path).value)
    {
      assert forall c | c in claims :: Located(s, root, c.hit) && c.hit.path != [];
      ReplacedThere(t, claims, path);
      ReplaceKeeps(TreeAt(t, path).value, path, Pick(claims));
    }
  }

  lemma ReplaceKeeps(t: Tree, path: Path, pick: Path -> Option<Tree -> Tree>)
    ensures SameNodeAs(t, Replace(t, path, pick))
  {
  }

  lemma NotInside(claims: seq<Claim>, c: Claim)
    requires ClaimsApart(claims) && c in claims
    ensures forall d | d in claims :: !(d.hit.path < c.hit.path)
  {
    forall d | d in claims ensures !(d.hit.path < c.hit.path) {
      var i :| 0 <= i < |claims| && claims[i] == c;
      var j :| 0 <= j < |claims| && claims[j] == d;
      if i < j { assert Apart(c.hit.path, d.hit.path); }
      if j < i { assert Apart(d.hit.path, c.hit.path); }
    }
  }

  // ---------- any order ----------

  /** The claims at positions order[0], order[1], ... */
  function Picked(claims: seq<Claim>, order: seq<nat>): (r: seq<Claim>)
    requires forall i | 0 <= i < |order| :: order[i] < |claims|
    ensures |r| == |order| && forall i | 0 <= i < |order| :: r[i] == claims[order[i]]
  {
    seq(|order|, i requires 0 <= i < |order| => claims[order[i]])
  }

  /** The store after applying the claims one by one. */
  function ApplyAll(s: Store, claims: seq<Claim>): Store {
    if claims == [] then s
    else
      var c, now := claims[|claims| - 1], ApplyAll(s, claims[..|claims| - 1]);
      if Sound(now) && c.hit.slot.Some? && c.hit.slot.value.0 in now && c.hit.cfg in now then ApplyOne(now, c) else now
  }

  ghost predicate Permutation(order: seq<nat>, n: nat) {
    && (forall i | 0 <= i < |order| :: order[i] < n)
    && (forall i, j | 0 <= i < j < |order| :: order[i] != order[j])
    && (forall k | 0 <= k < n :: k in order)
  }

  lemma {:induction false} ApplyAllWrites(s: Store, root: nat, claims: seq<Claim>) returns (w: Writes)
    requires Sound(s) && root in s && TreeShaped(s, root) && Grounded(s, root, claims) && ClaimsApart(claims)
    ensures WritesOf(s, claims, w) && ApplyAll(s, claims) == With(s, w)
  {
    hide TreeShaped, Located, Sound;
    if claims == [] {
      w := map[];
      WithNothing(s);
    } else {
      var n := |claims| - 1;
      var c := claims[n];
      w := ApplyAllWrites(s, root, claims[..n]);
      assert claims[..n] + [c] == claims;
      ApplyStep(s, root, claims[..n], w, c);
      w := w[c.hit.slot.value := Replacement(s, c)];
    }
  }

  /** The writes do not depend on the order. */
  lemma SameWrites(s: Store, a: seq<Claim>, b: seq<Claim>, w: Writes)
    requires Sound(s) && WritesOf(s, a, w) && forall c :: c in a <==> c in b
    ensures WritesOf(s, b, w)
  {
  }

  lemma PickedApart(claims: seq<Claim>, order: seq<nat>)
    requires Permutation(order, |claims|) && ClaimsApart(claims)
    ensures ClaimsApart(Picked(claims, order)) && forall c :: c in Picked(claims, order) <==> c in claims
  {
    var picked := Picked(claims, order);
    forall c | c in claims ensures c in picked {
      var k :| 0 <= k < |claims| && claims[k] == c;
      assert k in order;
      var i :| 0 <= i < |order| && order[i] == k;
      assert picked[i] == c;
    }
  }

  /** Overrides are confluent: if the checks pass, applying the claims in any order replaces every claimed node of the
      original tree by its factory applied to that node, all at once. */
  lemma Confluent(s: Store, root: nat, ovs: seq<Override>, order: seq<nat>)
    requires Sound(s) && NamedStore(s) && Pristine(s) && root in s && TreeShaped(s, root) && DistinctNames(ovs)
    requires NoConflict(AllClaims(s, root, ovs)) && NoRoot(AllClaims(s, root, ovs))
    requires Permutation(order, |AllClaims(s, root, ovs)|)
    ensures var claims := AllClaims(s, root, ovs);
            var now := ApplyAll(s, Picked(claims, order));
            Sound(now) && root in now &&
            Unfold(now, Ref(root)) == Replace(Unfold(s, Ref(root)), [], Pick(claims))
  {
    var claims := AllClaims(s, root, ovs);
    PassedClaimsApart(s, root, ovs);
    PickedApart(claims, order);
    assert Grounded(s, root, claims);
    var w := ApplyAllWrites(s, root, Picked(claims, order));
    SameWrites(s, Picked(claims, order), claims, w);
    assert Follow(s, root, []) == Some(root);
    UnfoldReplace(s, root, claims, w, root, []);
  }

  // ---------- resolution and the whole of apply_overrides ----------

  datatype ResolveError = Unregistered(target: string) | NamedTwice(target: string)

  method ResolveActive(registry: map<string, Override>, targets: seq<string>) returns (r: Result<seq<Override>, ResolveError>)
    requires forall k | k in registry :: registry[k].name == k
    ensures r.Ok? <==> (forall i | 0 <= i < |targets| :: targets[i] in registry) &&
                       (forall i, j | 0 <= i < j < |targets| :: targets[i] != targets[j])
    ensures r.Ok? ==> |r.value| == |targets| && DistinctNames(r.value)
    ensures r.Ok? ==> forall i | 0 <= i < |targets| :: targets[i] in registry && r.value[i] == registry[targets[i]]
  {
    var resolved: seq<Override>, claimed: set<string> := [], {};
    for i := 0 to |targets|
      invariant |resolved| == i && claimed == set k | 0 <= k < i :: targets[k]
      invariant forall k | 0 <= k < i :: targets[k] in registry && resolved[k] == registry[targets[k]]
      invariant forall j, k | 0 <= j < k < i :: targets[j] != targets[k]
    {
      if targets[i] !in registry {
        return Err(Unregistered(targets[i]));
      }
      if targets[i] in claimed {
        return Err(NamedTwice(targets[i]));
      }
      claimed := claimed + {targets[i]};
      resolved := resolved + [registry[targets[i]]];
    }
    r := Ok(resolved);
  }

  lemma SetSlotSound(s: Store, id: nat, key: Key, t: Tree)
    requires Sound(s) && id in s
    ensures Sound(SetSlot(s, id, key, New(t))) && SetSlot(s, id, key, New(t)).Keys == s.Keys
  {
    var next := SetSlot(s, id, key, New(t));
    assert forall x, j | x in next && 0 <= j < |next[x].slots| :: next[x].slots[j].0 == s[x].slots[j].0;
    assert forall x, j | x in next && 0 <= j < |next[x].slots| && next[x].slots[j].1.Ref? ::
      next[x].slots[j].1 == s[x].slots[j].1;
  }

  lemma ApplyNext(s: Store, claims: seq<Claim>, i: nat)
    requires i < |claims| && claims[i].hit.slot.Some?
    requires var now := ApplyAll(s, claims[..i]);
             Sound(now) && claims[i].hit.slot.value.0 in now && claims[i].hit.cfg in now
    ensures ApplyAll(s, claims[..i + 1]) == ApplyOne(ApplyAll(s, claims[..i]), claims[i])
  {
    assert claims[..i + 1][..i] == claims[..i];
  }

  lemma {:induction false} ClaimsLocated(s: Store, root: nat, ovs: seq<Override>)
    requires Sound(s) && root in s
    ensures Reachable(s, root, AllClaims(s, root, ovs))
  {
    if ovs != [] {
      var n := |ovs| - 1;
      ClaimsLocated(s, root, ovs[..n]);
      TraversalLocated(s, ovs[n].cls, false, root);
      TraversalApart(s, ovs[n].cls, root);
      ChosenOf(s, root, ovs[n], HitsOf(s, root, ovs[n]));
    }
  }

  lemma RootsAndRelations(s: Store, root: nat, claims: seq<Claim>)
    requires Sound(s) && root in s && Reachable(s, root, claims)
    ensures NoRoot(claims) <==> forall c | c in claims :: c.hit.path != []
    ensures NoRoot(claims) && Unrelated(claims) <==>
      (forall c | c in claims :: c.hit.path != []) &&
      (forall c, d | c in claims && d in claims && c.ov.name != d.ov.name :: Apart(c.hit.path, d.hit.path))
  {
    hide Fqn;
    assert forall i | 0 <= i < |claims| :: claims[i] in claims;
    assert forall c | c in claims :: Located(s, root, c.hit) && (c.hit.slot.Some? <==> c.hit.path != []);
    if NoRoot(claims) && Unrelated(claims) {
      forall c, d | c in claims && d in claims && c.ov.name != d.ov.name ensures Apart(c.hit.path, d.hit.path) {
        assert !Nested(c.hit.path, d.hit.path) && !Nested(d.hit.path, c.hit.path);
      }
    }
  }

  lemma GroundedClaims(s: Store, root: nat, claims: seq<Claim>)
    requires Sound(s) && root in s && Reachable(s, root, claims) && NoRoot(claims)
    ensures Grounded(s, root, claims)
  {
  }

  lemma InOrder(claims: seq<Claim>) returns (order: seq<nat>)
    ensures Permutation(order, |claims|) && Picked(claims, order) == claims
  {
    order := seq(|claims|, i => i);
    forall k | 0 <= k < |claims| ensures k in order {
      assert order[k] == k;
    }
  }

  lemma LocatedInStore(s: Store, root: nat, claims: seq<Claim>, c: Claim)
    requires Sound(s) && root in s && Reachable(s, root, claims) && c in claims
    ensures c.hit.cfg in s && (c.hit.slot.Some? ==> c.hit.slot.value.0 in s)
  {
    assert Located(s, root, c.hit);
  }

  /** The config tree overrides are applied to, in place. */
  class OverridableConfig {
    var store: Store
    const root: nat

    ghost predicate Valid()
      reads this
    {
      Sound(store) && NamedStore(store) && Pristine(store) && root in store && TreeShaped(store, root)
    }

    constructor (store: Store, root: nat)
      requires Sound(store) && NamedStore(store) && Pristine(store) && root in store && TreeShaped(store, root)
      ensures Valid() && this.store == store && this.root == root
    {
      this.store, this.root := store, root;
    }

    /** The loop that replaces claimed nodes one by one; it stops at a claim on the root. */
    method ApplyClaims(claims: seq<Claim>) returns (error: Option<OverrideError>)
      requires Sound(store) && root in store && Reachable(store, root, claims)
      modifies this
      ensures error == if NoRoot(claims) then None else Some(RootClaimed)
      ensures error.None? ==> store == ApplyAll(old(store), claims)
    {
      hide Sound, Located, SetSlot;
      for i := 0 to |claims|
        invariant Sound(store) && store.Keys == old(store.Keys)
        invariant store == ApplyAll(old(store), claims[..i])
        invariant forall k | 0 <= k < i :: claims[k].hit.slot.Some?
      {
        var c := claims[i];
        LocatedInStore(old(store), root, claims, c);
        var config := c.ov.factory(Unfold(store, Ref(c.hit.cfg)));
        if c.hit.slot.None? {
          return Some(RootClaimed);
        }
        var (parent, attr) := c.hit.slot.value;
        ApplyNext(old(store), claims, i);
        SetSlotSound(store, parent, attr, config);
        store := SetSlot(store, parent, attr, New(config));
      }
      assert claims[..|claims|] == claims;
      error := None;
    }

    /** apply_overrides: every claimed node becomes its factory of the original node; nothing changes on a conflict. */
    method ApplyOverrides(ovs: seq<Override>) returns (error: Option<OverrideError>)
      requires Valid() && DistinctNames(ovs)
      modifies this
      ensures var claims := old(AllClaims(store, root, ovs));
              error.None? <==>
                (forall c | c in claims :: c.hit.path != []) &&
                (forall c, d | c in claims && d in claims && c.ov.name != d.ov.name :: Apart(c.hit.path, d.hit.path))
      ensures error.None? ==> Sound(store) && root in store
      ensures error.None? ==>
        Unfold(store, Ref(root)) == Replace(old(Unfold(store, Ref(root))), [], Pick(old(AllClaims(store, root, ovs))))
      ensures error.None? ==>
        IsReplaced(old(AllClaims(store, root, ovs)), old(Unfold(store, Ref(root))), Unfold(store, Ref(root)))
      ensures error == Some(SameNode) || error == Some(NestedNodes) ==> store == old(store)
    {
      hide AllClaims, NoConflict, NoRoot, Unrelated, TreeShaped, Unfold, Replace, Pick, IsReplaced, Grounded, ClaimsApart;
      ghost var before := store;
      var claims := CollectClaims(store, root, ovs);
      ClaimsLocated(before, root, ovs);
      RootsAndRelations(before, root, claims);
      error := CheckNodeConflicts(claims, before, root);
      if error.Some? {
        return;
      }
      error := ApplyClaims(claims);
      if error.None? {
        var order := InOrder(claims);
        Confluent(before, root, ovs, order);
        PassedClaimsApart(before, root, ovs);
        assert Grounded(before, root, claims) by { GroundedClaims(before, root, claims); }
        ReplaceIsReplaced(before, root, claims);
      }
    }
  }
}

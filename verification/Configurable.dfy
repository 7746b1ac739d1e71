/** Configurable.Config.traverse (torchtitan/config/configurable.py, torchtitan/protocols/model_spec.py). */
module Configurable {
  import opened Wrappers
  import opened ConfigTree

  /** One yield: the dotted name, the config, and the container and key that hold it (None for the root). */
  datatype Hit = Hit(path: Path, fqn: string, cfg: nat, slot: Option<(nat, Key)>)

  type Class = nat -> bool

  predicate IsInstance(kind: Kind, cls: Class) {
    kind.ConfigKind? && cls(kind.cls)
  }

  function SlotHits(s: Store, cls: Class, recurse: bool, id: nat, path: Path, j: nat): seq<Hit>
    requires Sound(s) && id in s && j < |s[id].slots|
    decreases id, 0, 0
  {
    var (key, v) := s[id].slots[j];
    if !v.Ref? then []
    else
      var here := path + [key];
      var hit := Hit(here, Fqn(here), v.id, Some((id, key)));
      if IsInstance(s[v.id].kind, cls) then [hit] + if recurse then Hits(s, cls, recurse, v.id, here) else []
      else if s[id].kind.ListKind? && s[v.id].kind.ListKind? then []
      else Hits(s, cls, recurse, v.id, here)
  }

  function HitsUpTo(s: Store, cls: Class, recurse: bool, id: nat, path: Path, n: nat): seq<Hit>
    requires Sound(s) && id in s && n <= |s[id].slots|
    decreases id, 1, n
  {
    if n == 0 then [] else HitsUpTo(s, cls, recurse, id, path, n - 1) + SlotHits(s, cls, recurse, id, path, n - 1)
  }

  /** The hits below an object. */
  function Hits(s: Store, cls: Class, recurse: bool, id: nat, path: Path): seq<Hit>
    requires Sound(s) && id in s
    decreases id, 2, 0
  {
    HitsUpTo(s, cls, recurse, id, path, |s[id].slots|)
  }

  function Traversal(s: Store, cls: Class, recurse: bool, root: nat): seq<Hit>
    requires Sound(s) && root in s
  {
    if IsInstance(s[root].kind, cls)
    then [Hit([], "", root, None)] + if recurse then Hits(s, cls, recurse, root, []) else []
    else Hits(s, cls, recurse, root, [])
  }

  predicate NamedStore(s: Store) {
    forall id, j | id in s && 0 <= j < |s[id].slots| :: Nameable(s[id].slots[j].0)
  }

  /** What traverse yields below `id`, whose dotted name is `prefix`. */
  method Below(s: Store, cls: Class, recurse: bool, id: nat, prefix: string, path: Path) returns (hits: seq<Hit>)
    requires Sound(s) && NamedStore(s) && id in s && Names(path) && prefix == Fqn(path)
    ensures hits == Hits(s, cls, recurse, id, path)
    decreases id
  {
    hits := [];
    var slots := s[id].slots;
    for j := 0 to |slots|
      invariant hits == HitsUpTo(s, cls, recurse, id, path, j)
    {
      var (key, v) := slots[j];
      if v.Ref? {
        var fqn := if prefix == "" then Text(key) else prefix + "." + Text(key);
        var here := path + [key];
        FqnAppend(path, key);
        if IsInstance(s[v.id].kind, cls) {
          hits := hits + [Hit(here, fqn, v.id, Some((id, key)))];
          if recurse {
            var below := Below(s, cls, recurse, v.id, fqn, here);
            hits := hits + below;
          }
        } else if !(s[id].kind.ListKind? && s[v.id].kind.ListKind?) {
          var below := Below(s, cls, recurse, v.id, fqn, here);
          hits := hits + below;
        }
      }
    }
  }

  method Traverse(s: Store, cls: Class, recurse: bool, root: nat) returns (hits: seq<Hit>)
    requires Sound(s) && NamedStore(s) && root in s
    ensures hits == Traversal(s, cls, recurse, root)
  {
    hits := [];
    if IsInstance(s[root].kind, cls) {
      hits := [Hit([], "", root, None)];
      if !recurse {
        return;
      }
    }
    var below := Below(s, cls, recurse, root, "", []);
    hits := hits + below;
  }

  // ---------- what a hit says ----------

  /** The hit is where its path says: the container holds the config under the key. */
  predicate Located(s: Store, root: nat, h: Hit)
    requires Sound(s) && root in s
  {
    && h.fqn == Fqn(h.path)
    && (if h.path == [] then h.slot == None && h.cfg == root
        else h.slot.Some? && Follow(s, root, h.path[..|h.path| - 1]) == Some(h.slot.value.0) &&
             h.path[|h.path| - 1] == h.slot.value.1)
    && Follow(s, root, h.path) == Some(h.cfg)
  }

  predicate AllBelow(s: Store, root: nat, path: Path, hits: seq<Hit>)
    requires Sound(s) && root in s
  {
    forall i | 0 <= i < |hits| :: Located(s, root, hits[i]) && ProperPrefix(path, hits[i].path)
  }

  lemma {:induction false} SlotHitsBelow(s: Store, cls: Class, recurse: bool, root: nat, id: nat, path: Path, j: nat)
    requires Sound(s) && root in s && id in s && Follow(s, root, path) == Some(id) && j < |s[id].slots|
    ensures AllBelow(s, root, path, SlotHits(s, cls, recurse, id, path, j))
    ensures forall i | 0 <= i < |SlotHits(s, cls, recurse, id, path, j)| ::
      SlotHits(s, cls, recurse, id, path, j)[i].path[|path|] == s[id].slots[j].0
    decreases id, 0, 0
  {
    hide Fqn, Hits;
    var (key, v) := s[id].slots[j];
    if v.Ref? {
      var here := path + [key];
      FollowStep(s, root, path, j);
      assert here[..|here| - 1] == path;
      HitsBelow(s, cls, recurse, root, v.id, here);
      BelowKey(s, root, path, key, Hits(s, cls, recurse, v.id, here));
    }
  }

  lemma BelowKey(s: Store, root: nat, path: Path, key: Key, hits: seq<Hit>)
    requires Sound(s) && root in s && AllBelow(s, root, path + [key], hits)
    ensures AllBelow(s, root, path, hits) && forall i | 0 <= i < |hits| :: hits[i].path[|path|] == key
  {
    hide Located;
    var here := path + [key];
    forall i | 0 <= i < |hits| ensures ProperPrefix(path, hits[i].path) && hits[i].path[|path|] == key {
      assert here[..|path|] == path && here[|path|] == key;
      assert hits[i].path[..|path|] == here[..|path|];
    }
  }

  lemma {:induction false} HitsUpToBelow(s: Store, cls: Class, recurse: bool, root: nat, id: nat, path: Path, n: nat)
    requires Sound(s) && root in s && id in s && Follow(s, root, path) == Some(id) && n <= |s[id].slots|
    ensures AllBelow(s, root, path, HitsUpTo(s, cls, recurse, id, path, n))
    decreases id, 1, n
  {
    if n > 0 {
      HitsUpToBelow(s, cls, recurse, root, id, path, n - 1);
      SlotHitsBelow(s, cls, recurse, root, id, path, n - 1);
    }
  }

  /** Hits below an object lie strictly below its path. */
  lemma {:induction false} HitsBelow(s: Store, cls: Class, recurse: bool, root: nat, id: nat, path: Path)
    requires Sound(s) && root in s && id in s && Follow(s, root, path) == Some(id)
    ensures AllBelow(s, root, path, Hits(s, cls, recurse, id, path))
    decreases id, 2, 0
  {
    HitsUpToBelow(s, cls, recurse, root, id, path, |s[id].slots|);
  }

  // ---------- without recursion, only topmost matches ----------

  predicate Apart(p: Path, q: Path) {
    !(p <= q) && !(q <= p)
  }

  predicate PairwiseApart(hits: seq<Hit>) {
    forall i, j | 0 <= i < j < |hits| :: Apart(hits[i].path, hits[j].path)
  }

  /** Below `path`, through one of the first n slots. */
  predicate StartsIn(s: Store, id: nat, n: nat, path: Path, h: Hit)
    requires id in s
  {
    path < h.path && exists k | 0 <= k < n && k < |s[id].slots| :: s[id].slots[k].0 == h.path[|path|]
  }

  lemma {:induction false} HitsUpToKeys(s: Store, cls: Class, root: nat, id: nat, path: Path, n: nat)
    requires Sound(s) && root in s && id in s && Follow(s, root, path) == Some(id) && n <= |s[id].slots|
    ensures forall h | h in HitsUpTo(s, cls, false, id, path, n) :: StartsIn(s, id, n, path, h)
  {
    if n > 0 {
      HitsUpToKeys(s, cls, root, id, path, n - 1);
      SlotHitsBelow(s, cls, false, root, id, path, n - 1);
      forall h | h in HitsUpTo(s, cls, false, id, path, n) ensures StartsIn(s, id, n, path, h) {
        if h in HitsUpTo(s, cls, false, id, path, n - 1) {
          assert StartsIn(s, id, n - 1, path, h);
        } else {
          assert h in SlotHits(s, cls, false, id, path, n - 1);
        }
      }
    }
  }

  lemma DifferAt(p: Path, q: Path, k: nat)
    requires k < |p| && k < |q| && p[k] != q[k]
    ensures Apart(p, q)
  {
  }

  lemma {:induction false} HitsUpToApart(s: Store, cls: Class, root: nat, id: nat, path: Path, n: nat)
    requires Sound(s) && root in s && id in s && Follow(s, root, path) == Some(id) && n <= |s[id].slots|
    ensures PairwiseApart(HitsUpTo(s, cls, false, id, path, n))
    decreases id, 1, n
  {
    if n > 0 {
      var before, now := HitsUpTo(s, cls, false, id, path, n - 1), SlotHits(s, cls, false, id, path, n - 1);
      HitsUpToApart(s, cls, root, id, path, n - 1);
      SlotHitsApart(s, cls, root, id, path, n - 1);
      HitsUpToKeys(s, cls, root, id, path, n - 1);
      SlotHitsBelow(s, cls, false, root, id, path, n - 1);
      forall i, j | 0 <= i < |before| && 0 <= j < |now| ensures Apart(before[i].path, now[j].path) {
        assert StartsIn(s, id, n - 1, path, before[i]);
        DifferAt(before[i].path, now[j].path, |path|);
      }
    }
  }

  lemma {:induction false} SlotHitsApart(s: Store, cls: Class, root: nat, id: nat, path: Path, j: nat)
    requires Sound(s) && root in s && id in s && Follow(s, root, path) == Some(id) && j < |s[id].slots|
    ensures PairwiseApart(SlotHits(s, cls, false, id, path, j))
    decreases id, 0, 0
  {
    var (key, v) := s[id].slots[j];
    if v.Ref? {
      FollowStep(s, root, path, j);
      HitsUpToApart(s, cls, root, v.id, path + [key], |s[v.id].slots|);
    }
  }

  /** One traversal never yields nested configs. */
  lemma TraversalApart(s: Store, cls: Class, root: nat)
    requires Sound(s) && root in s
    ensures PairwiseApart(Traversal(s, cls, false, root))
  {
    assert Follow(s, root, []) == Some(root);
    HitsUpToApart(s, cls, root, root, [], |s[root].slots|);
  }

  lemma TraversalLocated(s: Store, cls: Class, recurse: bool, root: nat)
    requires Sound(s) && root in s
    ensures forall i | 0 <= i < |Traversal(s, cls, recurse, root)| :: Located(s, root, Traversal(s, cls, recurse, root)[i])
  {
    assert Follow(s, root, []) == Some(root);
    HitsBelow(s, cls, recurse, root, root, []);
  }

  lemma {:induction false} FollowNames(s: Store, id: nat, path: Path)
    requires Sound(s) && NamedStore(s) && id in s && Follow(s, id, path).Some?
    ensures Names(path)
  {
    if path != [] {
      var j := Find(s[id].slots, path[0]);
      assert Nameable(s[id].slots[j].0);
      FollowNames(s, Step(s, id, path[0]).value, path[1..]);
    }
  }

  /** No object yet holds a config built by a factory. */
  predicate Pristine(s: Store) {
    forall id, j | id in s && 0 <= j < |s[id].slots| :: !s[id].slots[j].1.New?
  }

  lemma LastStep(s: Store, root: nat, path: Path, id: nat, j: nat)
    requires Sound(s) && root in s && Follow(s, root, path) == Some(id) && id in s && j < |s[id].slots|
    ensures Follow(s, root, path + [s[id].slots[j].0]) ==
            if s[id].slots[j].1.Ref? then Some(s[id].slots[j].1.id) else None
  {
    var key := s[id].slots[j].0;
    FollowAppend(s, root, path, [key]);
    assert Find(s[id].slots, key) == j;
    if s[id].slots[j].1.Ref? { FollowStep(s, root, path, j); }
  }

  /** A hit is on a slot exactly if its path leads there. */
  lemma SlotOfPath(s: Store, root: nat, h: Hit, id: nat, path: Path, j: nat)
    requires Sound(s) && root in s && TreeShaped(s, root) && Located(s, root, h) && h.slot.Some?
    requires Follow(s, root, path) == Some(id) && id in s && j < |s[id].slots|
    ensures h.slot == Some((id, s[id].slots[j].0)) <==> h.path == path + [s[id].slots[j].0]
    ensures h.path == path + [s[id].slots[j].0] ==> s[id].slots[j].1 == Ref(h.cfg)
  {
    hide Fqn;
    var p, here := h.path, path + [s[id].slots[j].0];
    assert p == p[..|p| - 1] + [p[|p| - 1]] && here[..|here| - 1] == path;
    LastStep(s, root, path, id, j);
  }

  // ---------- exactly which configs a traversal yields ----------

  predicate IsList(s: Store, id: Option<nat>) {
    id.Some? && id.value in s && s[id.value].kind.ListKind?
  }

  /** The path enters a list that is an item of a list. */
  predicate Blocked(s: Store, root: nat, path: Path)
    requires Sound(s) && root in s
  {
    exists i | 0 <= i < |path| :: IsList(s, Follow(s, root, path[..i])) && IsList(s, Follow(s, root, path[..i + 1]))
  }

  lemma BlockedNext(s: Store, root: nat, path: Path, key: Key)
    requires Sound(s) && root in s
    ensures Blocked(s, root, path + [key]) <==>
      Blocked(s, root, path) || (IsList(s, Follow(s, root, path)) && IsList(s, Follow(s, root, path + [key])))
  {
    var here := path + [key];
    assert here[..|path|] == path && here[..|path| + 1] == here;
    assert forall i | 0 <= i <= |path| :: here[..i] == path[..i];
  }

  /** From id, the traversal goes down rest to its end: no list in a list, and without recursion nothing matched on the
      way. */
  predicate Walks(s: Store, cls: Class, recurse: bool, id: nat, rest: Path)
    requires Sound(s) && id in s
  {
    rest == [] ||
    match Step(s, id, rest[0])
    case None => false
    case Some(k) =>
      && !(s[id].kind.ListKind? && s[k].kind.ListKind?)
      && (|rest| == 1 || recurse || !IsInstance(s[k].kind, cls))
      && Walks(s, cls, recurse, k, rest[1..])
  }

  /** h is what the traversal yields for the config below id, itself at path. */
  predicate HitAt(s: Store, cls: Class, recurse: bool, id: nat, path: Path, h: Hit)
    requires Sound(s) && id in s
  {
    path < h.path && h.fqn == Fqn(h.path) && h.slot.Some? &&
    var rest := h.path[|path|..];
    && Walks(s, cls, recurse, id, rest) && Follow(s, id, rest) == Some(h.cfg) && IsInstance(s[h.cfg].kind, cls)
    && Follow(s, id, rest[..|rest| - 1]) == Some(h.slot.value.0) && rest[|rest| - 1] == h.slot.value.1
  }

  /** One step further down. */
  lemma HitAtStep(s: Store, cls: Class, recurse: bool, id: nat, path: Path, j: nat, h: Hit)
    requires Sound(s) && id in s && j < |s[id].slots| && s[id].slots[j].1.Ref?
    requires path + [s[id].slots[j].0] < h.path
    ensures var k := s[id].slots[j].1.id; var here := path + [s[id].slots[j].0];
      HitAt(s, cls, recurse, id, path, h) <==>
        !(s[id].kind.ListKind? && s[k].kind.ListKind?) && (recurse || !IsInstance(s[k].kind, cls)) &&
        HitAt(s, cls, recurse, k, here, h)
  {
    hide Fqn;
    var (key, v) := s[id].slots[j];
    var here := path + [key];
    assert Find(s[id].slots, key) == j;
    var rest, more := h.path[|path|..], h.path[|here|..];
    assert h.path[..|here|] == here && rest == [key] + more && rest[1..] == more;
    assert h.path[..|path|] == path;
    assert rest[..|rest| - 1][1..] == more[..|more| - 1];
  }

  lemma {:induction false} SlotHitsExact(s: Store, cls: Class, recurse: bool, id: nat, path: Path, j: nat, h: Hit)
    requires Sound(s) && id in s && j < |s[id].slots|
    ensures h in SlotHits(s, cls, recurse, id, path, j) <==>
      HitAt(s, cls, recurse, id, path, h) && h.path[|path|] == s[id].slots[j].0
    decreases id, 0, 0
  {
    hide Fqn;
    var (key, v) := s[id].slots[j];
    assert Find(s[id].slots, key) == j;
    if v.Ref? {
      var here := path + [key];
      HitsExact(s, cls, recurse, v.id, here, h);
      if here < h.path {
        HitAtStep(s, cls, recurse, id, path, j, h);
      } else {
        HitHere(s, cls, recurse, id, path, j, h);
      }
    }
  }

  /** The config in slot j itself. */
  lemma HitHere(s: Store, cls: Class, recurse: bool, id: nat, path: Path, j: nat, h: Hit)
    requires Sound(s) && id in s && j < |s[id].slots| && s[id].slots[j].1.Ref? && !(path + [s[id].slots[j].0] < h.path)
    ensures var (key, v) := s[id].slots[j]; var here := path + [key];
      HitAt(s, cls, recurse, id, path, h) && h.path[|path|] == key <==>
        h == Hit(here, Fqn(here), v.id, Some((id, key))) && IsInstance(s[v.id].kind, cls)
  {
    hide Fqn;
    var (key, v) := s[id].slots[j];
    var here := path + [key];
    assert Find(s[id].slots, key) == j;
    if path < h.path && h.path[|path|] == key {
      assert h.path[..|here|] == here;
      assert h.path == here;
    }
    if h.path == here {
      var rest := h.path[|path|..];
      assert rest == [key] && rest[1..] == [] && rest[..0] == [];
      assert path < here && here[|path|] == key;
      assert Follow(s, id, rest) == Follow(s, v.id, []) == Some(v.id) && Follow(s, id, []) == Some(id);
      assert Walks(s, cls, recurse, v.id, []);
    }
  }

  lemma {:induction false} HitsUpToExact(s: Store, cls: Class, recurse: bool, id: nat, path: Path, n: nat, h: Hit)
    requires Sound(s) && id in s && n <= |s[id].slots|
    ensures h in HitsUpTo(s, cls, recurse, id, path, n) <==>
      HitAt(s, cls, recurse, id, path, h) && exists j | 0 <= j < n :: h.path[|path|] == s[id].slots[j].0
    decreases id, 1, n
  {
    hide HitAt, SlotHits;
    if n > 0 {
      HitsUpToExact(s, cls, recurse, id, path, n - 1, h);
      SlotHitsExact(s, cls, recurse, id, path, n - 1, h);
    }
  }

  lemma {:induction false} HitsExact(s: Store, cls: Class, recurse: bool, id: nat, path: Path, h: Hit)
    requires Sound(s) && id in s
    ensures h in Hits(s, cls, recurse, id, path) <==> HitAt(s, cls, recurse, id, path, h)
    decreases id, 2, 0
  {
    hide Fqn;
    HitsUpToExact(s, cls, recurse, id, path, |s[id].slots|, h);
    if HitAt(s, cls, recurse, id, path, h) {
      var rest := h.path[|path|..];
      assert rest[0] == h.path[|path|];
      assert Find(s[id].slots, rest[0]) >= 0;
    }
  }

  /** Nothing on the way to the end of path, from its start or from its first step on, is of the class. */
  predicate NoneFrom(s: Store, cls: Class, id: nat, path: Path, from: nat)
    requires Sound(s) && id in s
  {
    forall i | from <= i < |path| :: Follow(s, id, path[..i]).Some? ==> !IsInstance(s[Follow(s, id, path[..i]).value].kind, cls)
  }

  predicate NoneAbove(s: Store, cls: Class, root: nat, path: Path)
    requires Sound(s) && root in s
  {
    NoneFrom(s, cls, root, path, 0)
  }

  lemma BlockedFirst(s: Store, id: nat, path: Path, k: nat)
    requires Sound(s) && id in s && path != [] && Step(s, id, path[0]) == Some(k)
    ensures Blocked(s, id, path) <==> (s[id].kind.ListKind? && s[k].kind.ListKind?) || Blocked(s, k, path[1..])
  {
    var rest := path[1..];
    forall i | 0 <= i <= |rest| ensures Follow(s, id, path[..i + 1]) == Follow(s, k, rest[..i]) {
      assert path[..i + 1][1..] == rest[..i];
    }
    assert path[..0] == [] && rest[..0] == [];
    assert Follow(s, id, path[..0]) == Some(id) && Follow(s, id, path[..1]) == Some(k);
    if Blocked(s, id, path) {
      var i :| 0 <= i < |path| && IsList(s, Follow(s, id, path[..i])) && IsList(s, Follow(s, id, path[..i + 1]));
      if i > 0 { assert IsList(s, Follow(s, k, rest[..i - 1])) && IsList(s, Follow(s, k, rest[..i - 1 + 1])); }
    }
    if Blocked(s, k, rest) {
      var i :| 0 <= i < |rest| && IsList(s, Follow(s, k, rest[..i])) && IsList(s, Follow(s, k, rest[..i + 1]));
      assert IsList(s, Follow(s, id, path[..i + 1])) && IsList(s, Follow(s, id, path[..i + 1 + 1]));
    }
  }

  lemma NoneFromFirst(s: Store, cls: Class, id: nat, path: Path, k: nat)
    requires Sound(s) && id in s && path != [] && Step(s, id, path[0]) == Some(k)
    ensures NoneFrom(s, cls, id, path, 1) <==> |path| == 1 || (!IsInstance(s[k].kind, cls) && NoneFrom(s, cls, k, path[1..], 1))
  {
    var rest := path[1..];
    forall i | 0 <= i <= |rest| ensures Follow(s, id, path[..i + 1]) == Follow(s, k, rest[..i]) {
      assert path[..i + 1][1..] == rest[..i];
    }
    assert rest[..0] == [] && Follow(s, k, []) == Some(k);
    if NoneFrom(s, cls, id, path, 1) && |path| > 1 {
      assert Follow(s, id, path[..1]) == Some(k);
      forall i | 1 <= i < |rest| && Follow(s, k, rest[..i]).Some?
        ensures !IsInstance(s[Follow(s, k, rest[..i]).value].kind, cls)
      {
        assert Follow(s, id, path[..i + 1]).Some?;
      }
    }
    if |path| == 1 || (!IsInstance(s[k].kind, cls) && NoneFrom(s, cls, k, rest, 1)) {
      forall i | 1 <= i < |path| && Follow(s, id, path[..i]).Some?
        ensures !IsInstance(s[Follow(s, id, path[..i]).value].kind, cls)
      {
        assert Follow(s, id, path[..i - 1 + 1]) == Follow(s, k, rest[..i - 1]);
      }
    }
  }

  lemma {:induction false} WalksIs(s: Store, cls: Class, recurse: bool, id: nat, rest: Path)
    requires Sound(s) && id in s && Follow(s, id, rest).Some?
    ensures Walks(s, cls, recurse, id, rest) <==> !Blocked(s, id, rest) && (recurse || NoneFrom(s, cls, id, rest, 1))
  {
    hide Blocked, NoneFrom;
    if rest == [] {
      EmptyPath(s, cls, id);
    } else {
      var k := Step(s, id, rest[0]).value;
      WalksIs(s, cls, recurse, k, rest[1..]);
      BlockedFirst(s, id, rest, k);
      NoneFromFirst(s, cls, id, rest, k);
      if |rest| == 1 { EmptyPath(s, cls, k); }
    }
  }

  lemma EmptyPath(s: Store, cls: Class, id: nat)
    requires Sound(s) && id in s
    ensures !Blocked(s, id, []) && NoneFrom(s, cls, id, [], 1)
  {
  }

  /** The traversal yields exactly the configs of the class, at every path that enters no list in a list and, without
      recursion, passes no other config of the class; each with its dotted name, its container and its key. */
  lemma TraversalExact(s: Store, cls: Class, recurse: bool, root: nat, h: Hit)
    requires Sound(s) && root in s
    ensures h in Traversal(s, cls, recurse, root) <==>
      Located(s, root, h) && IsInstance(s[h.cfg].kind, cls) && !Blocked(s, root, h.path) &&
      (recurse || NoneAbove(s, cls, root, h.path))
  {
    hide Fqn, Blocked, Walks, Hits, NoneFrom;
    assert Follow(s, root, []) == Some(root);
    HitsExact(s, cls, recurse, root, [], h);
    AboveFirst(s, cls, root, h.path);
    if h.path == [] {
      EmptyPath(s, cls, root);
      RootName();
    } else {
      assert h.path[0..] == h.path;
      if Follow(s, root, h.path).Some? {
        WalksIs(s, cls, recurse, root, h.path);
      }
    }
  }

  lemma RootName()
    ensures Fqn([]) == ""
  {
  }

  lemma AboveFirst(s: Store, cls: Class, root: nat, path: Path)
    requires Sound(s) && root in s
    ensures NoneAbove(s, cls, root, path) <==>
      path == [] || (!IsInstance(s[root].kind, cls) && NoneFrom(s, cls, root, path, 1))
  {
    if path != [] {
      assert path[..0] == [] && Follow(s, root, path[..0]) == Some(root);
    }
  }
}

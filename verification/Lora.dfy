/** LoRA conversion of a model config tree, in place and from the leaves up (torchtitan/components/lora.py). */
module Lora {
  import opened Wrappers
  import opened ConfigTree
  import opened Configurable

  /** The converter's settings. frozen and lora give the subclass made for a class; the caches make them functions. */
  datatype Settings = Settings(isModule: Class, isLinear: Class, targets: Option<set<string>>,
                               frozen: nat -> nat, lora: nat -> nat, rank: int, alpha: int)

  predicate IsTarget(x: Settings, cls: nat, segment: string) {
    x.isLinear(cls) && (x.targets.None? || segment in x.targets.value)
  }

  /** _make_lora_config or _make_frozen_config: another class, the same fields, and two more for LoRA. */
  function Make(x: Settings, t: Tree, segment: string): Tree {
    if t.Leaf? || t.kind.ListKind? then t
    else if IsTarget(x, t.kind.cls, segment)
    then Node(ConfigKind(x.lora(t.kind.cls)), t.kids + [(Field("rank"), Leaf(x.rank)), (Field("alpha"), Leaf(x.alpha))])
    else Node(ConfigKind(x.frozen(t.kind.cls)), t.kids)
  }

  /** The recursive map: children first, then the config itself if it is a module. */
  function Convert(x: Settings, t: Tree, segment: string): Tree
    decreases t, 1
  {
    match t
    case Leaf(_) => t
    case Node(kind, _) => if IsInstance(kind, x.isModule) then Make(x, ConvertKids(x, t), segment) else ConvertKids(x, t)
  }

  /** Lists directly inside lists are not traversed. */
  function ConvertKids(x: Settings, t: Tree): Tree
    decreases t, 0
  {
    match t
    case Leaf(_) => t
    case Node(kind, kids) =>
      Node(kind, seq(|kids|, j requires 0 <= j < |kids| =>
        (kids[j].0, if kind.ListKind? && kids[j].1.Node? && kids[j].1.kind.ListKind? then kids[j].1
                    else Convert(x, kids[j].1, Text(kids[j].0)))))
  }

  // ---------- the shape is kept ----------

  /** Reads a conversion back: `base` gives the class a converted class was made from. */
  function Restore(base: nat -> nat, isLora: Class, t: Tree): Tree
    decreases t
  {
    match t
    case Leaf(_) => t
    case Node(kind, kids) =>
      var n := if kind.ConfigKind? && isLora(kind.cls) && |kids| >= 2 then |kids| - 2 else |kids|;
      Node(if kind.ListKind? then kind else ConfigKind(base(kind.cls)), seq(n, j requires 0 <= j < n =>
        (kids[j].0, if kind.ListKind? && kids[j].1.Node? && kids[j].1.kind.ListKind? then kids[j].1
                    else Restore(base, isLora, kids[j].1))))
  }

  /** base and isLora know the classes the converter makes, and leave configs that are not modules alone. */
  ghost predicate Knows(x: Settings, base: nat -> nat, isLora: Class) {
    && (forall c {:trigger x.frozen(c)} :: base(x.frozen(c)) == c && !isLora(x.frozen(c)))
    && (forall c {:trigger x.lora(c)} :: base(x.lora(c)) == c && isLora(x.lora(c)))
    && (forall c {:trigger x.isModule(c)} :: !x.isModule(c) ==> base(c) == c && !isLora(c))
  }

  /** Conversion changes classes and adds the two LoRA fields; every other field and the shape of the tree are kept. */
  lemma {:induction false} RestoreConverted(x: Settings, base: nat -> nat, isLora: Class, t: Tree, segment: string)
    requires Knows(x, base, isLora)
    ensures Restore(base, isLora, Convert(x, t, segment)) == t
    decreases t
  {
    if t.Node? {
      var kids, done, made := t.kids, ConvertKids(x, t), Convert(x, t, segment);
      assert done.Node? && |done.kids| == |kids|;
      assert made == if IsInstance(t.kind, x.isModule) then Make(x, done, segment) else done;
      assert made.kids[..|kids|] == ConvertKids(x, t).kids;
      assert made.kind.ConfigKind? ==> base(made.kind.cls) == t.kind.cls;
      var back := Restore(base, isLora, made);
      assert |back.kids| == |kids|;
      forall j | 0 <= j < |kids| ensures back.kids[j] == kids[j] {
        assert made.kids[j] == ConvertKids(x, t).kids[j];
        if !(t.kind.ListKind? && kids[j].1.Node? && kids[j].1.kind.ListKind?) {
          RestoreConverted(x, base, isLora, kids[j].1, Text(kids[j].0));
        }
      }
      assert back.kids == kids;
    }
  }

  // ---------- which configs become LoRA ----------

  /** The path enters no list that is an item of a list. */
  predicate Entered(t: Tree, path: Path) {
    path == [] || t.Leaf? ||
    var j := FirstKid(t.kids, path[0]);
    j == |t.kids| ||
    (!(t.kind.ListKind? && t.kids[j].1.Node? && t.kids[j].1.kind.ListKind?) && Entered(t.kids[j].1, path[1..]))
  }

  /** u is what t becomes under the given name: a LoRA config with its two fields, a frozen config, or, if it is no
      module config, of the class it was. Its fields keep their places. */
  predicate Becomes(x: Settings, t: Tree, u: Tree, name: string) {
    if t.Leaf? then u == t
    else
      && u.Node? && |u.kids| >= |t.kids| && (forall j | 0 <= j < |t.kids| :: u.kids[j].0 == t.kids[j].0)
      && if t.kind.ListKind? || !x.isModule(t.kind.cls) then u.kind == t.kind && |u.kids| == |t.kids|
         else if x.isLinear(t.kind.cls) && (x.targets.None? || name in x.targets.value) then
           u.kind == ConfigKind(x.lora(t.kind.cls)) &&
           u.kids[|t.kids|..] == [(Field("rank"), Leaf(x.rank)), (Field("alpha"), Leaf(x.alpha))]
         else u.kind == ConfigKind(x.frozen(t.kind.cls)) && |u.kids| == |t.kids|
  }

  function NameOf(path: Path, outer: string): string {
    if path == [] then outer else Text(path[|path| - 1])
  }

  lemma ConvertBecomes(x: Settings, t: Tree, segment: string)
    ensures Becomes(x, t, Convert(x, t, segment), segment)
  {
    if t.Node? {
      var done := ConvertKids(x, t);
      assert |done.kids| == |t.kids| && forall j | 0 <= j < |t.kids| :: done.kids[j].0 == t.kids[j].0;
    }
  }

  /** What conversion makes of the config at a path. */
  lemma {:induction false} ConvertedAt(x: Settings, t: Tree, segment: string, path: Path)
    requires TreeAt(t, path).Some? && Entered(t, path)
    ensures TreeAt(Convert(x, t, segment), path).Some?
    ensures Becomes(x, TreeAt(t, path).value, TreeAt(Convert(x, t, segment), path).value, NameOf(path, segment))
    decreases |path|
  {
    hide Becomes;
    var u := Convert(x, t, segment);
    if path == [] {
      ConvertBecomes(x, t, segment);
    } else {
      var j, rest := FirstKid(t.kids, path[0]), path[1..];
      KidsConverted(x, t, segment, j);
      FirstKidKept(t.kids, u.kids, path[0]);
      ConvertedAt(x, t.kids[j].1, Text(path[0]), rest);
      assert rest != [] ==> rest[|rest| - 1] == path[|path| - 1];
    }
  }

  lemma KidsConverted(x: Settings, t: Tree, segment: string, j: nat)
    requires t.Node? && j < |t.kids| && !(t.kind.ListKind? && t.kids[j].1.Node? && t.kids[j].1.kind.ListKind?)
    ensures var u := Convert(x, t, segment);
      u.Node? && |u.kids| >= |t.kids| && (forall i | 0 <= i < |t.kids| :: u.kids[i].0 == t.kids[i].0) &&
      u.kids[j].1 == Convert(x, t.kids[j].1, Text(t.kids[j].0))
  {
    var done := ConvertKids(x, t);
    assert |done.kids| == |t.kids| && forall i | 0 <= i < |t.kids| :: done.kids[i].0 == t.kids[i].0;
    assert done.kids[j].1 == Convert(x, t.kids[j].1, Text(t.kids[j].0));
  }

  lemma AllConverted(x: Settings, t: Tree)
    ensures forall path {:trigger TreeAt(t, path)} | TreeAt(t, path).Some? && Entered(t, path) ::
      TreeAt(Convert(x, t, ""), path).Some? &&
      Becomes(x, TreeAt(t, path).value, TreeAt(Convert(x, t, ""), path).value, NameOf(path, ""))
  {
    forall path {:trigger TreeAt(t, path)} | TreeAt(t, path).Some? && Entered(t, path)
      ensures TreeAt(Convert(x, t, ""), path).Some? &&
        Becomes(x, TreeAt(t, path).value, TreeAt(Convert(x, t, ""), path).value, NameOf(path, ""))
    {
      ConvertedAt(x, t, "", path);
    }
  }

  // ---------- the last segment of a dotted name ----------

  /** fqn.rsplit(".", 1)[-1] */
  function LastSegment(s: string): string {
    if s == "" then ""
    else if s[|s| - 1] == '.' then ""
    else LastSegment(s[..|s| - 1]) + [s[|s| - 1]]
  }

  lemma {:induction false} LastSegmentOf(a: string, b: string)
    requires '.' !in b
    ensures LastSegment(a + "." + b) == b && LastSegment(b) == b
  {
    if b == "" {
      assert a + "." + b == a + ".";
    } else {
      var n := |b| - 1;
      var init, last, all := b[..n], b[n], a + "." + b;
      LastSegmentOf(a, init);
      assert all[..|all| - 1] == a + "." + init && all[|all| - 1] == last;
      assert b == init + [last];
    }
  }

  lemma SegmentOfDotted(prefix: string, name: string)
    requires '.' !in name
    ensures LastSegment(Dotted(prefix, name)) == name
  {
    LastSegmentOf(prefix, name);
  }

  /** The last segment of a child's dotted name is its key. */
  lemma SegmentOfChild(path: Path, key: Key)
    requires Names(path) && Nameable(key)
    ensures LastSegment(Fqn(path + [key])) == Text(key)
  {
    TextOf(key);
    FqnAppend(path, key);
    SegmentOfDotted(Fqn(path), Text(key));
  }

  // ---------- which configs a recursive traversal reaches ----------

  lemma {:induction false} BlockedBelow(s: Store, root: nat, path: Path, more: Path)
    requires Sound(s) && root in s && Blocked(s, root, path)
    ensures Blocked(s, root, path + more)
  {
    var i :| 0 <= i < |path| && IsList(s, Follow(s, root, path[..i])) && IsList(s, Follow(s, root, path[..i + 1]));
    assert (path + more)[..i] == path[..i] && (path + more)[..i + 1] == path[..i + 1];
  }

  /** A module config on a path that is not blocked. */
  predicate Reached(s: Store, root: nat, cls: Class, h: Hit)
    requires Sound(s) && root in s
  {
    Located(s, root, h) && IsInstance(s[h.cfg].kind, cls) && !Blocked(s, root, h.path)
  }

  ghost predicate AllReached(s: Store, root: nat, cls: Class, hits: seq<Hit>)
    requires Sound(s) && root in s
  {
    forall h | h in hits :: Reached(s, root, cls, h) && h.slot.Some?
  }

  lemma {:induction false} SlotReached(s: Store, root: nat, cls: Class, id: nat, path: Path, j: nat)
    requires Sound(s) && root in s && id in s && Follow(s, root, path) == Some(id) && !Blocked(s, root, path)
    requires j < |s[id].slots|
    ensures AllReached(s, root, cls, SlotHits(s, cls, true, id, path, j))
    decreases id, 0, 0
  {
    var (key, v) := s[id].slots[j];
    if v.Ref? {
      FollowStep(s, root, path, j);
      BlockedNext(s, root, path, key);
      SlotHitsBelow(s, cls, true, root, id, path, j);
      if !(s[id].kind.ListKind? && s[v.id].kind.ListKind?) {
        UpToReached(s, root, cls, v.id, path + [key], |s[v.id].slots|);
      }
    }
  }

  lemma {:induction false} UpToReached(s: Store, root: nat, cls: Class, id: nat, path: Path, n: nat)
    requires Sound(s) && root in s && id in s && Follow(s, root, path) == Some(id) && !Blocked(s, root, path)
    requires n <= |s[id].slots|
    ensures AllReached(s, root, cls, HitsUpTo(s, cls, true, id, path, n))
    decreases id, 1, n
  {
    if n > 0 {
      UpToReached(s, root, cls, id, path, n - 1);
      SlotReached(s, root, cls, id, path, n - 1);
    }
  }

  // ---------- parents come before children ----------

  ghost predicate Preorder(s: Store, cls: Class, hits: seq<Hit>)
    requires Sound(s)
  {
    forall i, h | 0 <= i < |hits| && hits[i].cfg in s && h in Hits(s, cls, true, hits[i].cfg, hits[i].path) :: h in hits[i + 1..]
  }

  lemma PreorderJoin(s: Store, cls: Class, a: seq<Hit>, b: seq<Hit>)
    requires Sound(s) && Preorder(s, cls, a) && Preorder(s, cls, b)
    ensures Preorder(s, cls, a + b)
  {
    var c := a + b;
    forall i, h | 0 <= i < |c| && c[i].cfg in s && h in Hits(s, cls, true, c[i].cfg, c[i].path) ensures h in c[i + 1..] {
      if i < |a| {
        assert c[i + 1..] == a[i + 1..] + b;
      } else {
        assert c[i + 1..] == b[i - |a| + 1..];
      }
    }
  }

  lemma {:induction false} SlotPreorder(s: Store, cls: Class, id: nat, path: Path, j: nat)
    requires Sound(s) && id in s && j < |s[id].slots|
    ensures Preorder(s, cls, SlotHits(s, cls, true, id, path, j))
    decreases id, 0, 0
  {
    var (key, v) := s[id].slots[j];
    if v.Ref? {
      var here := path + [key];
      UpToPreorder(s, cls, v.id, here, |s[v.id].slots|);
      PreorderFirst(s, cls, Hit(here, Fqn(here), v.id, Some((id, key))));
    }
  }

  lemma PreorderFirst(s: Store, cls: Class, h: Hit)
    requires Sound(s) && h.cfg in s && Preorder(s, cls, Hits(s, cls, true, h.cfg, h.path))
    ensures Preorder(s, cls, [h] + Hits(s, cls, true, h.cfg, h.path))
  {
    var below := Hits(s, cls, true, h.cfg, h.path);
    var all := [h] + below;
    forall i, g | 0 <= i < |all| && all[i].cfg in s && g in Hits(s, cls, true, all[i].cfg, all[i].path) ensures g in all[i + 1..] {
      if i == 0 { assert all[1..] == below; } else { assert all[i + 1..] == below[i..]; }
    }
  }

  lemma {:induction false} UpToPreorder(s: Store, cls: Class, id: nat, path: Path, n: nat)
    requires Sound(s) && id in s && n <= |s[id].slots|
    ensures Preorder(s, cls, HitsUpTo(s, cls, true, id, path, n))
    decreases id, 1, n
  {
    if n > 0 {
      UpToPreorder(s, cls, id, path, n - 1);
      SlotPreorder(s, cls, id, path, n - 1);
      PreorderJoin(s, cls, HitsUpTo(s, cls, true, id, path, n - 1), SlotHits(s, cls, true, id, path, n - 1));
    }
  }

  // ---------- the reversed walk ----------

  /** The conversion of a hit's original config. */
  function Converted(x: Settings, s: Store, h: Hit): Tree
    requires Sound(s) && h.cfg in s
  {
    Convert(x, Unfold(s, Ref(h.cfg)), LastSegment(h.fqn))
  }

  /** Every hit in `done` has its conversion in its slot, and nothing else was written. */
  ghost predicate WritesOf(x: Settings, s: Store, done: seq<Hit>, w: Writes)
    requires Sound(s)
  {
    && (forall h | h in done :: h.slot.Some? && h.slot.value in w && h.cfg in s && w[h.slot.value] == Converted(x, s, h))
    && (forall slot | slot in w :: exists h :: h in done && h.slot == Some(slot))
  }

  ghost predicate Walked(x: Settings, s: Store, root: nat, done: seq<Hit>, w: Writes)
    requires Sound(s) && root in s
  {
    TreeShaped(s, root) && Pristine(s) && NamedStore(s) && AllReached(s, root, x.isModule, done) && WritesOf(x, s, done, w)
  }

  /** Below an object whose hits are all done, the store holds the conversion. */
  lemma {:induction false} UnfoldConverted(x: Settings, s: Store, root: nat, done: seq<Hit>, w: Writes, id: nat, path: Path)
    requires Sound(s) && root in s && Walked(x, s, root, done, w)
    requires Follow(s, root, path) == Some(id) && !Blocked(s, root, path)
    requires forall h | h in Hits(s, x.isModule, true, id, path) :: h in done
    ensures Sound(With(s, w)) && id in With(s, w) && Unfold(With(s, w), Ref(id)) == ConvertKids(x, Unfold(s, Ref(id)))
    decreases id, 1
  {
    WithSound(s, w);
    var slots, now, t := s[id].slots, With(s, w), Unfold(s, Ref(id));
    forall j | 0 <= j < |slots| ensures Unfold(now, now[id].slots[j].1) == ConvertKids(x, t).kids[j].1 {
      SlotHitsIn(s, x.isModule, id, path, |slots|, j);
      UnfoldConvertedKid(x, s, root, done, w, id, path, j);
    }
    assert Unfold(now, Ref(id)).kids == ConvertKids(x, t).kids;
  }

  lemma {:induction false} SlotHitsIn(s: Store, cls: Class, id: nat, path: Path, n: nat, j: nat)
    requires Sound(s) && id in s && j < n <= |s[id].slots|
    ensures forall h | h in SlotHits(s, cls, true, id, path, j) :: h in HitsUpTo(s, cls, true, id, path, n)
  {
    if j < n - 1 { SlotHitsIn(s, cls, id, path, n - 1, j); }
  }

  lemma HitsBelowSlot(s: Store, cls: Class, id: nat, path: Path, j: nat)
    requires Sound(s) && id in s && j < |s[id].slots| && s[id].slots[j].1.Ref?
    requires !IsInstance(s[s[id].slots[j].1.id].kind, cls)
    requires !(s[id].kind.ListKind? && s[s[id].slots[j].1.id].kind.ListKind?)
    ensures SlotHits(s, cls, true, id, path, j) == Hits(s, cls, true, s[id].slots[j].1.id, path + [s[id].slots[j].0])
  {
  }

  /** A module config is written over by its conversion. */
  lemma WrittenKid(x: Settings, s: Store, root: nat, done: seq<Hit>, w: Writes, id: nat, path: Path, j: nat)
    requires Sound(s) && Sound(With(s, w)) && root in s && Walked(x, s, root, done, w)
    requires Follow(s, root, path) == Some(id) && !Blocked(s, root, path) && id in s && j < |s[id].slots|
    requires s[id].slots[j].1.Ref? && IsInstance(s[s[id].slots[j].1.id].kind, x.isModule)
    requires forall h | h in SlotHits(s, x.isModule, true, id, path, j) :: h in done
    ensures Holds(With(s, w), With(s, w)[id].slots[j].1)
    ensures Unfold(With(s, w), With(s, w)[id].slots[j].1) ==
            Convert(x, Unfold(s, s[id].slots[j].1), Text(s[id].slots[j].0))
  {
    var (key, v) := s[id].slots[j];
    var here := path + [key];
    FollowStep(s, root, path, j);
    assert Hit(here, Fqn(here), v.id, Some((id, key))) in done;
    FollowNames(s, root, path);
    SegmentOfChild(path, key);
  }

  lemma {:induction false} UnfoldConvertedKid(x: Settings, s: Store, root: nat, done: seq<Hit>, w: Writes, id: nat, path: Path, j: nat)
    requires Sound(s) && Sound(With(s, w)) && root in s && Walked(x, s, root, done, w)
    requires Follow(s, root, path) == Some(id) && !Blocked(s, root, path) && id in s && j < |s[id].slots|
    requires forall h | h in SlotHits(s, x.isModule, true, id, path, j) :: h in done
    ensures Holds(With(s, w), With(s, w)[id].slots[j].1)
    ensures var (key, v) := s[id].slots[j]; var t := Unfold(s, v);
            Unfold(With(s, w), With(s, w)[id].slots[j].1) ==
            if s[id].kind.ListKind? && t.Node? && t.kind.ListKind? then t else Convert(x, t, Text(key))
    decreases id, 0
  {
    hide SlotHits;
    var (key, v) := s[id].slots[j];
    var here := path + [key];
    if v.Ref? && IsInstance(s[v.id].kind, x.isModule) {
      WrittenKid(x, s, root, done, w, id, path, j);
    } else {
      NotWritten(x, s, root, done, w, id, path, j);
      if v.Ref? {
        FollowStep(s, root, path, j);
        BlockedNext(s, root, path, key);
        if s[id].kind.ListKind? && s[v.id].kind.ListKind? {
          BlockedUntouched(x, s, root, done, w, v.id, here);
        } else {
          HitsBelowSlot(s, x.isModule, id, path, j);
          UnfoldConverted(x, s, root, done, w, v.id, here);
        }
      }
    }
  }

  /** Only module configs are written over. */
  lemma NotWritten(x: Settings, s: Store, root: nat, done: seq<Hit>, w: Writes, id: nat, path: Path, j: nat)
    requires Sound(s) && root in s && Walked(x, s, root, done, w)
    requires Follow(s, root, path) == Some(id) && id in s && j < |s[id].slots|
    requires s[id].slots[j].1.Ref? ==> !IsInstance(s[s[id].slots[j].1.id].kind, x.isModule)
    ensures (id, s[id].slots[j].0) !in w
  {
    var key := s[id].slots[j].0;
    if (id, key) in w {
      var h :| h in done && h.slot == Some((id, key));
      SlotOfPath(s, root, h, id, path, j);
    }
  }

  /** Nothing is written below a blocked list. */
  lemma BlockedUntouched(x: Settings, s: Store, root: nat, done: seq<Hit>, w: Writes, id: nat, path: Path)
    requires Sound(s) && Sound(With(s, w)) && root in s && Walked(x, s, root, done, w)
    requires Follow(s, root, path) == Some(id) && Blocked(s, root, path)
    ensures id in With(s, w) && Unfold(With(s, w), Ref(id)) == Unfold(s, Ref(id))
  {
    forall slot, p {:trigger slot in w, Follow(s, id, p)} | slot in w ensures Follow(s, id, p) != Some(slot.0) {
      var h :| h in done && h.slot == Some(slot);
      NoHitBelow(s, root, x.isModule, h, id, path, p);
    }
    WithAgrees(s, w, id);
    AgreeUnfold(s, With(s, w), id);
  }

  lemma NoHitBelow(s: Store, root: nat, cls: Class, h: Hit, id: nat, path: Path, p: Path)
    requires Sound(s) && root in s && TreeShaped(s, root) && Reached(s, root, cls, h) && h.slot.Some?
    requires Follow(s, root, path) == Some(id) && id in s && Blocked(s, root, path)
    ensures Follow(s, id, p) != Some(h.slot.value.0)
  {
    hide Blocked;
    if Follow(s, id, p) == Some(h.slot.value.0) {
      FollowAppend(s, root, path, p);
      var q := h.path;
      assert q[..|q| - 1] == path + p;
      assert q == path + (p + [q[|q| - 1]]);
      BlockedBelow(s, root, path, p + [q[|q| - 1]]);
    }
  }

  /** One step of the reversed walk: its hits below are done, so its conversion is that of the original config. */
  lemma WalkStep(x: Settings, s: Store, root: nat, hits: seq<Hit>, i: nat, w: Writes)
    requires Sound(s) && root in s && i < |hits| && Preorder(s, x.isModule, hits)
    requires Walked(x, s, root, hits[i + 1..], w) && Reached(s, root, x.isModule, hits[i])
    ensures hits[i].cfg in With(s, w) && Sound(With(s, w))
    ensures Make(x, Unfold(With(s, w), Ref(hits[i].cfg)), LastSegment(hits[i].fqn)) == Converted(x, s, hits[i])
  {
    UnfoldConverted(x, s, root, hits[i + 1..], w, hits[i].cfg, hits[i].path);
  }

  lemma SameSlotSameHit(s: Store, root: nat, g: Hit, h: Hit)
    requires Sound(s) && root in s && TreeShaped(s, root) && Located(s, root, g) && Located(s, root, h)
    requires g.slot.Some? && g.slot == h.slot
    ensures g == h
  {
    var p, q := g.path, h.path;
    assert p == p[..|p| - 1] + [p[|p| - 1]] && q == q[..|q| - 1] + [q[|q| - 1]];
  }

  /** Writing the conversion of the next hit. */
  lemma WalkWrite(x: Settings, s: Store, root: nat, done: seq<Hit>, h: Hit, w: Writes)
    requires Sound(s) && root in s && Walked(x, s, root, done, w)
    requires Reached(s, root, x.isModule, h) && h.slot.Some?
    ensures Walked(x, s, root, [h] + done, w[h.slot.value := Converted(x, s, h)])
  {
    hide Sound, TreeShaped, Pristine, NamedStore, WritesOf, Reached;
    ReachedLocated(s, root, x.isModule, h);
    forall g | g in done ensures Reached(s, root, x.isModule, g) && (g.slot == h.slot ==> g == h) {
      ReachedLocated(s, root, x.isModule, g);
      if g.slot == h.slot { SameSlotSameHit(s, root, g, h); }
    }
    OneMoreWrite(x, s, done, h, w);
  }

  lemma ReachedLocated(s: Store, root: nat, cls: Class, h: Hit)
    requires Sound(s) && root in s && Reached(s, root, cls, h)
    ensures Located(s, root, h) && h.cfg in s
  {
  }

  lemma OneMoreWrite(x: Settings, s: Store, done: seq<Hit>, h: Hit, w: Writes)
    requires Sound(s) && WritesOf(x, s, done, w) && h.slot.Some? && h.cfg in s
    requires forall g | g in done && g.slot == h.slot :: g == h
    ensures WritesOf(x, s, [h] + done, w[h.slot.value := Converted(x, s, h)])
  {
    hide Converted, Sound;
    var next, all := w[h.slot.value := Converted(x, s, h)], [h] + done;
    assert forall g | g in all :: g == h || g in done;
    forall slot | slot in next ensures exists g :: g in all && g.slot == Some(slot) {
      if slot == h.slot.value {
        assert h in all;
      } else {
        var g :| g in done && g.slot == Some(slot);
        assert g in all;
      }
    }
  }

  /** The same step with its write. */
  lemma WalkNext(x: Settings, s: Store, root: nat, hits: seq<Hit>, i: nat, w: Writes)
    requires Sound(s) && root in s && i < |hits| && Preorder(s, x.isModule, hits)
    requires Walked(x, s, root, hits[i + 1..], w) && Reached(s, root, x.isModule, hits[i]) && hits[i].slot.Some?
    ensures var (id, key) := hits[i].slot.value;
            id in With(s, w) &&
            SetSlot(With(s, w), id, key, New(Converted(x, s, hits[i]))) == With(s, w[(id, key) := Converted(x, s, hits[i])])
    ensures Walked(x, s, root, hits[i..], w[hits[i].slot.value := Converted(x, s, hits[i])])
    ensures Sound(With(s, w[hits[i].slot.value := Converted(x, s, hits[i])]))
  {
    hide Converted, TreeShaped, Walked, Unfold;
    var h := hits[i];
    var (id, key) := h.slot.value;
    assert Located(s, root, h);
    WriteNext(s, w, id, key, Converted(x, s, h));
    WalkWrite(x, s, root, hits[i + 1..], h, w);
    assert [h] + hits[i + 1..] == hits[i..];
    WithSound(s, w[(id, key) := Converted(x, s, h)]);
  }

  lemma WalkDone(x: Settings, s: Store, root: nat, hits: seq<Hit>, w: Writes)
    requires Sound(s) && root in s && hits == Traversal(s, x.isModule, true, root)
    requires !IsInstance(s[root].kind, x.isModule) && Walked(x, s, root, hits, w)
    ensures Sound(With(s, w)) && root in With(s, w)
    ensures Unfold(With(s, w), Ref(root)) == Convert(x, Unfold(s, Ref(root)), "")
  {
    assert Follow(s, root, []) == Some(root);
    UnfoldConverted(x, s, root, hits, w, root, []);
  }

  lemma TraversalFacts(s: Store, root: nat, cls: Class)
    requires Sound(s) && root in s
    ensures Preorder(s, cls, Traversal(s, cls, true, root))
    ensures forall h | h in Traversal(s, cls, true, root) :: Reached(s, root, cls, h)
    ensures forall i | 0 <= i < |Traversal(s, cls, true, root)| ::
      Traversal(s, cls, true, root)[i].slot.None? <==> i == 0 && IsInstance(s[root].kind, cls)
  {
    assert Follow(s, root, []) == Some(root) && !Blocked(s, root, []);
    UpToPreorder(s, cls, root, [], |s[root].slots|);
    UpToReached(s, root, cls, root, [], |s[root].slots|);
    PreorderFirst(s, cls, Hit([], "", root, None));
  }

  /** A model config, converted in place. */
  class ModelConfig {
    var store: Store
    const root: nat

    ghost predicate Valid()
      reads this
    {
      Sound(store) && NamedStore(store) && Pristine(store) && root in store && TreeShaped(store, root)
    }

    constructor (store: Store, root: nat)
      requires Sound(store) && NamedStore(store) && Pristine(store) && root in store && TreeShaped(store, root)
      ensures Valid() && this.store == store && this.root == root
    {
      this.store, this.root := store, root;
    }

    /** LoRAConverter.convert: the reversed in-place walk is the bottom-up map of the whole tree. */
    method ConvertModel(x: Settings) returns (converted: Val)
      requires Valid()
      modifies this
      ensures Sound(store) && Holds(store, converted)
      ensures Unfold(store, converted) == Convert(x, old(Unfold(store, Ref(root))), "")
      ensures var t, u := old(Unfold(store, Ref(root))), Unfold(store, converted);
        forall path {:trigger TreeAt(t, path)} | TreeAt(t, path).Some? && Entered(t, path) ::
          TreeAt(u, path).Some? && Becomes(x, TreeAt(t, path).value, TreeAt(u, path).value, NameOf(path, ""))
    {
      ghost var before := store;
      var hits := Traverse(store, x.isModule, true, root);
      TraversalFacts(before, root, x.isModule);
      converted := Ref(root);
      ghost var w: Writes := map[];
      WithNothing(before);
      assert Walked(x, before, root, hits[|hits|..], w);
      hide Walked, TreeShaped, Preorder, Convert, Make;
      var i := |hits|;
      while i > 0
        invariant 0 <= i <= |hits|
        invariant store == With(before, w) && Sound(store) && store.Keys == before.Keys
        invariant i > 0 || !IsInstance(before[root].kind, x.isModule) ==>
          converted == Ref(root) && Walked(x, before, root, hits[i..], w)
        invariant i == 0 && IsInstance(before[root].kind, x.isModule) ==>
          converted == New(Convert(x, Unfold(before, Ref(root)), ""))
      {
        i := i - 1;
        var h := hits[i];
        assert Reached(before, root, x.isModule, h);
        WalkStep(x, before, root, hits, i, w);
        var config := Make(x, Unfold(store, Ref(h.cfg)), LastSegment(h.fqn));
        if h.slot.None? {
          converted := New(config);
        } else {
          var (parent, attr) := h.slot.value;
          WalkNext(x, before, root, hits, i, w);
          store, w := SetSlot(store, parent, attr, New(config)), w[(parent, attr) := config];
        }
      }
      if !IsInstance(before[root].kind, x.isModule) {
        assert hits[0..] == hits;
        WalkDone(x, before, root, hits, w);
      }
      AllConverted(x, Unfold(before, Ref(root)));
    }
  }
}

/** Configs as objects in a store, their traversal, and the dotted names it yields
    (torchtitan/config/configurable.py, torchtitan/protocols/model_spec.py). */
module ConfigTree {
  import opened Decimals
  import opened Wrappers

  /** An attribute name or a list position. */
  datatype Key = Field(name: string) | Index(i: nat)

  datatype Kind = ListKind | ConfigKind(cls: nat)

  /** What a config is, apart from object identity. */
  datatype Tree = Leaf(data: int) | Node(kind: Kind, kids: seq<(Key, Tree)>)

  /** A slot holds plain data, an object of the store, or a config built since. */
  datatype Val = Data(data: int) | Ref(id: nat) | New(tree: Tree)

  datatype Obj = Obj(kind: Kind, slots: seq<(Key, Val)>)

  type Store = map<nat, Obj>

  type Path = seq<Key>

  /** Objects are numbered in the order they were built, and hold earlier ones. */
  predicate Ordered(s: Store) {
    forall id, j | id in s && 0 <= j < |s[id].slots| && s[id].slots[j].1.Ref? ::
      s[id].slots[j].1.id in s && s[id].slots[j].1.id < id
  }

  predicate KeysDistinct(s: Store) {
    forall id, i, j | id in s && 0 <= i < j < |s[id].slots| :: s[id].slots[i].0 != s[id].slots[j].0
  }

  predicate Sound(s: Store) {
    Ordered(s) && KeysDistinct(s)
  }

  predicate Holds(s: Store, v: Val) {
    v.Ref? ==> v.id in s
  }

  function Rank(v: Val): nat {
    if v.Ref? then v.id + 1 else 0
  }

  /** The tree a value stands for. */
  function Unfold(s: Store, v: Val): Tree
    requires Sound(s) && Holds(s, v)
    decreases Rank(v)
  {
    match v
    case Data(d) => Leaf(d)
    case New(t) => t
    case Ref(id) =>
      var slots := s[id].slots;
      Node(s[id].kind, seq(|slots|, j requires 0 <= j < |slots| => (slots[j].0, Unfold(s, slots[j].1))))
  }

  /** The position of the first kid under a key, the number of kids when there is none. */
  function FirstKid(kids: seq<(Key, Tree)>, key: Key): (j: nat)
    ensures j <= |kids| && (j < |kids| ==> kids[j].0 == key) && forall i | 0 <= i < j :: kids[i].0 != key
  {
    if kids == [] || kids[0].0 == key then 0 else 1 + FirstKid(kids[1..], key)
  }

  /** The subtree at a path. */
  function TreeAt(t: Tree, path: seq<Key>): Option<Tree> {
    if path == [] then Some(t)
    else if t.Leaf? then None
    else
      var j := FirstKid(t.kids, path[0]);
      if j < |t.kids| then TreeAt(t.kids[j].1, path[1..]) else None
  }

  /** Kids under the same keys in the same places, perhaps with more after them, are found in the same place. */
  lemma FirstKidKept(kids: seq<(Key, Tree)>, more: seq<(Key, Tree)>, key: Key)
    requires |more| >= |kids| && forall j | 0 <= j < |kids| :: more[j].0 == kids[j].0
    requires FirstKid(kids, key) < |kids|
    ensures FirstKid(more, key) == FirstKid(kids, key)
  {
    var i := FirstKid(kids, key);
    assert more[i].0 == key && forall k | 0 <= k < i :: more[k].0 != key;
  }

  // ---------- paths ----------

  /** The position of a key, -1 when there is none. */
  function Find(slots: seq<(Key, Val)>, key: Key): (j: int)
    ensures -1 <= j < |slots| && (j >= 0 ==> slots[j].0 == key)
    ensures j < 0 ==> forall k | 0 <= k < |slots| :: slots[k].0 != key
  {
    if slots == [] then -1
    else if slots[|slots| - 1].0 == key then |slots| - 1
    else Find(slots[..|slots| - 1], key)
  }

  function Step(s: Store, id: nat, key: Key): Option<nat>
    requires Sound(s) && id in s
    ensures Step(s, id, key).Some? ==> Step(s, id, key).value in s && Step(s, id, key).value < id
  {
    var j := Find(s[id].slots, key);
    if j >= 0 && s[id].slots[j].1.Ref? then Some(s[id].slots[j].1.id) else None
  }

  /** The object at the end of a path. */
  function Follow(s: Store, id: nat, path: Path): (r: Option<nat>)
    requires Sound(s) && id in s
    ensures r.Some? ==> r.value in s && r.value <= id
  {
    if path == [] then Some(id)
    else
      match Step(s, id, path[0])
      case None => None
      case Some(k) => Follow(s, k, path[1..])
  }

  lemma {:induction false} FollowAppend(s: Store, id: nat, p: Path, q: Path)
    requires Sound(s) && id in s && Follow(s, id, p).Some?
    ensures Follow(s, id, p + q) == Follow(s, Follow(s, id, p).value, q)
  {
    if p == [] {
      assert p + q == q;
    } else {
      assert (p + q)[1..] == p[1..] + q;
      FollowAppend(s, Step(s, id, p[0]).value, p[1..], q);
    }
  }

  lemma FollowStep(s: Store, id: nat, p: Path, j: nat)
    requires Sound(s) && id in s && Follow(s, id, p).Some? && j < |s[Follow(s, id, p).value].slots|
    requires s[Follow(s, id, p).value].slots[j].1.Ref?
    ensures var slot := s[Follow(s, id, p).value].slots[j]; Follow(s, id, p + [slot.0]) == Some(slot.1.id)
  {
    var at := Follow(s, id, p).value;
    var slot := s[at].slots[j];
    assert Find(s[at].slots, slot.0) == j;
    FollowAppend(s, id, p, [slot.0]);
    assert Follow(s, slot.1.id, []) == Some(slot.1.id);
  }

  /** Every object is reached by one path only. */
  ghost predicate TreeShaped(s: Store, root: nat)
    requires Sound(s) && root in s
  {
    forall p, q {:trigger Follow(s, root, p), Follow(s, root, q)} ::
      Follow(s, root, p).Some? && Follow(s, root, p) == Follow(s, root, q) ==> p == q
  }

  /** Two stores hold the same objects from id on. */
  ghost predicate Agree(s: Store, t: Store, id: nat)
    requires Sound(s) && id in s
  {
    forall p {:trigger Follow(s, id, p)} :: Follow(s, id, p).Some? ==>
      Follow(s, id, p).value in t && t[Follow(s, id, p).value] == s[Follow(s, id, p).value]
  }

  lemma {:induction false} AgreeUnfold(s: Store, t: Store, id: nat)
    requires Sound(s) && Sound(t) && id in s && Agree(s, t, id)
    ensures id in t && Unfold(t, Ref(id)) == Unfold(s, Ref(id))
    decreases id
  {
    assert Follow(s, id, []) == Some(id);
    var slots := s[id].slots;
    forall j | 0 <= j < |slots| ensures Unfold(t, slots[j].1) == Unfold(s, slots[j].1) {
      if slots[j].1.Ref? {
        AgreeKid(s, t, id, j);
        AgreeUnfold(s, t, slots[j].1.id);
      }
    }
  }

  lemma AgreeKid(s: Store, t: Store, id: nat, j: nat)
    requires Sound(s) && id in s && Agree(s, t, id) && j < |s[id].slots| && s[id].slots[j].1.Ref?
    ensures Agree(s, t, s[id].slots[j].1.id)
  {
    var slot := s[id].slots[j];
    var kid := slot.1.id;
    assert Find(s[id].slots, slot.0) == j;
    forall p {:trigger Follow(s, kid, p)} | Follow(s, kid, p).Some?
      ensures Follow(s, kid, p).value in t && t[Follow(s, kid, p).value] == s[Follow(s, kid, p).value]
    {
      assert ([slot.0] + p)[1..] == p;
      assert Follow(s, id, [slot.0] + p) == Follow(s, kid, p);
    }
  }

  // ---------- names ----------

  function Text(key: Key): string {
    match key case Field(name) => name case Index(i) => Decimal(i)
  }

  /** Python identifiers are not empty, contain no dot and do not start with a digit. */
  predicate Nameable(key: Key) {
    key.Field? ==> key.name != [] && '.' !in key.name && !IsDigit(key.name[0])
  }

  predicate Names(path: Path) {
    forall k | 0 <= k < |path| :: Nameable(path[k])
  }

  lemma TextOf(key: Key)
    requires Nameable(key)
    ensures Text(key) != [] && '.' !in Text(key)
  {
    if key.Index? { DecimalDigits(key.i); }
  }

  lemma TextInjective(a: Key, b: Key)
    requires Nameable(a) && Nameable(b) && Text(a) == Text(b)
    ensures a == b
  {
    if a.Index? { DecimalDigits(a.i); }
    if b.Index? { DecimalDigits(b.i); }
    if a.Index? && b.Index? { DecimalInjective(a.i, b.i); }
  }

  /** The dotted name of a path. */
  function Fqn(path: Path): string {
    if path == [] then ""
    else if |path| == 1 then Text(path[0])
    else Text(path[0]) + "." + Fqn(path[1..])
  }

  /** f"{prefix}.{name}" if prefix else name */
  function Dotted(prefix: string, name: string): string {
    if prefix == "" then name else prefix + "." + name
  }

  lemma {:induction false} FqnAppend(path: Path, key: Key)
    requires Names(path)
    ensures Fqn(path + [key]) == Dotted(Fqn(path), Text(key))
    ensures path != [] ==> Fqn(path) != ""
  {
    if path != [] {
      TextOf(path[0]);
      assert (path + [key])[1..] == path[1..] + [key];
      FqnAppend(path[1..], key);
      if |path| > 1 {
        assert Fqn(path) + "." + Text(key) == Text(path[0]) + "." + (Fqn(path[1..]) + "." + Text(key));
      }
    }
  }

  predicate ProperPrefix(p: Path, q: Path) {
    p < q
  }

  predicate StartsWith(s: string, t: string) {
    t <= s
  }

  /** Two strings that go on with a dot, or stop, after a part without one have the same first part. */
  lemma FirstPart(a: string, x: string, b: string, y: string)
    requires '.' !in a && '.' !in b && (x == "" || x[0] == '.') && y != "" && y[0] == '.'
    requires StartsWith(a + x, b + y)
    ensures a == b && StartsWith(x, y)
  {
    var s, t := a + x, b + y;
    assert forall k | 0 <= k < |t| :: s[k] == t[k];
    assert forall k | 0 <= k < |b| :: t[k] != '.';
    assert forall k | 0 <= k < |a| :: s[k] != '.';
    assert t[|b|] == '.' && (x != "" ==> s[|a|] == '.');
    assert |a| == |b|;
    assert a == s[..|a|] == t[..|a|] == b;
    assert x[..|y|] == s[|a|..|t|] == t[|a|..] == y;
  }

  lemma SameFirst(a: string, x: string, y: string)
    ensures StartsWith(a + x, a + y) <==> StartsWith(x, y)
  {
    if StartsWith(a + x, a + y) { assert x[..|y|] == (a + x)[|a|..|a| + |y|] == (a + y)[|a|..] == y; }
    if StartsWith(x, y) { assert (a + x)[..|a| + |y|] == a + x[..|y|]; }
  }

  /** What follows the first name. */
  function Tail(path: Path): string
    requires path != []
  {
    if |path| == 1 then "" else "." + Fqn(path[1..])
  }

  lemma FqnIsFirstAndTail(p: Path)
    requires p != []
    ensures Fqn(p) == Text(p[0]) + Tail(p) && (Tail(p) == "" || Tail(p)[0] == '.')
  {
    if |p| > 1 {
      Associative(Text(p[0]), ".", Fqn(p[1..]));
    } else {
      assert Text(p[0]) + "" == Text(p[0]);
    }
  }

  lemma Associative(a: string, b: string, c: string)
    ensures a + b + c == a + (b + c)
  {
  }

  lemma FirstNames(p: Path, q: Path)
    requires Names(p) && Names(q) && p != [] && q != []
    ensures StartsWith(Fqn(q), Fqn(p) + ".") <==> p[0] == q[0] && StartsWith(Tail(q), Tail(p) + ".")
  {
    TextOf(p[0]);
    TextOf(q[0]);
    FqnIsFirstAndTail(p);
    FqnIsFirstAndTail(q);
    hide Fqn, StartsWith, Text;
    assert Fqn(p) + "." == Text(p[0]) + (Tail(p) + ".");
    if StartsWith(Fqn(q), Fqn(p) + ".") {
      FirstPart(Text(q[0]), Tail(q), Text(p[0]), Tail(p) + ".");
      TextInjective(p[0], q[0]);
    }
    if p[0] == q[0] { SameFirst(Text(q[0]), Tail(q), Tail(p) + "."); }
  }

  lemma TailPrefix(p: Path, q: Path)
    requires |p| > 1 && |q| > 1
    ensures StartsWith(Tail(q), Tail(p) + ".") <==> StartsWith(Fqn(q[1..]), Fqn(p[1..]) + ".")
  {
    assert Tail(p) + "." == "." + (Fqn(p[1..]) + ".");
    SameFirst(".", Fqn(q[1..]), Fqn(p[1..]) + ".");
  }

  /** A dotted prefix is exactly an ancestor in the tree. */
  lemma {:induction false} PrefixIsAncestor(p: Path, q: Path)
    requires Names(p) && Names(q) && p != []
    ensures StartsWith(Fqn(q), Fqn(p) + ".") <==> ProperPrefix(p, q)
  {
    hide Fqn, StartsWith;
    if q == [] {
      EmptyName(Fqn(p) + ".");
    } else {
      FirstNames(p, q);
      if |p| == 1 {
        OneName(p, q);
      } else if |q| == 1 {
        EmptyName(Tail(p) + ".");
      } else {
        TailPrefix(p, q);
        PrefixIsAncestor(p[1..], q[1..]);
      }
    }
    PrefixStep(p, q);
  }

  lemma EmptyName(t: string)
    requires t != ""
    ensures !StartsWith(Fqn([]), t) && !StartsWith("", t)
  {
  }

  lemma OneName(p: Path, q: Path)
    requires |p| == 1 && q != []
    ensures StartsWith(Tail(q), Tail(p) + ".") <==> |q| > 1
  {
  }

  lemma PrefixStep(p: Path, q: Path)
    requires p != []
    ensures ProperPrefix(p, q) <==> q != [] && p[0] == q[0] && ProperPrefix(p[1..], q[1..])
  {
    if q != [] && p[0] == q[0] && ProperPrefix(p[1..], q[1..]) {
      assert q[..|p|] == [q[0]] + q[1..][..|p| - 1];
    }
    if ProperPrefix(p, q) {
      assert q[0] == q[..|p|][0];
      assert q[1..][..|p| - 1] == q[..|p|][1..];
    }
  }

  // ---------- writing slots in place ----------

  /** setattr(parent, attr, new), parent[attr] = new */
  function SetSlot(s: Store, id: nat, key: Key, v: Val): Store
    requires id in s
  {
    var j := Find(s[id].slots, key);
    if j < 0 then s else s[id := s[id].(slots := s[id].slots[j := (key, v)])]
  }

  /** The configs written into slots. */
  type Writes = map<(nat, Key), Tree>

  function ObjWith(id: nat, o: Obj, w: Writes): Obj {
    Obj(o.kind, seq(|o.slots|, j requires 0 <= j < |o.slots| =>
      (o.slots[j].0, if (id, o.slots[j].0) in w then New(w[(id, o.slots[j].0)]) else o.slots[j].1)))
  }

  /** The store s with all of w written, in whatever order that happened. */
  function With(s: Store, w: Writes): Store {
    map id | id in s :: ObjWith(id, s[id], w)
  }

  lemma WithNothing(s: Store)
    ensures With(s, map[]) == s
  {
    forall id | id in s ensures ObjWith(id, s[id], map[]) == s[id] {
      assert ObjWith(id, s[id], map[]).slots == s[id].slots;
    }
  }

  lemma WithSound(s: Store, w: Writes)
    requires Sound(s)
    ensures Sound(With(s, w)) && With(s, w).Keys == s.Keys
  {
    var now := With(s, w);
    forall id, j | id in now && 0 <= j < |now[id].slots|
      ensures now[id].slots[j].0 == s[id].slots[j].0
      ensures now[id].slots[j].1.Ref? ==> now[id].slots[j].1 == s[id].slots[j].1
    {
    }
  }

  lemma WriteNext(s: Store, w: Writes, id: nat, key: Key, t: Tree)
    requires Sound(s) && id in s
    ensures id in With(s, w) && SetSlot(With(s, w), id, key, New(t)) == With(s, w[(id, key) := t])
  {
    var now, next := SetSlot(With(s, w), id, key, New(t)), With(s, w[(id, key) := t]);
    WithSound(s, w);
    forall x | x in s ensures now[x] == next[x] {
      var j := Find(With(s, w)[id].slots, key);
      forall k | 0 <= k < |s[x].slots| ensures now[x].slots[k] == next[x].slots[k] {
        if x == id && s[x].slots[k].0 == key {
          assert With(s, w)[id].slots[k].0 == key;
          assert s[id].slots[j].0 == key;
        }
      }
      assert now[x].slots == next[x].slots;
    }
  }

  /** Writes above an object leave it alone. */
  lemma WithAgrees(s: Store, w: Writes, id: nat)
    requires Sound(s) && id in s
    requires forall slot, p {:trigger slot in w, Follow(s, id, p)} | slot in w :: Follow(s, id, p) != Some(slot.0)
    ensures Agree(s, With(s, w), id)
  {
    forall p {:trigger Follow(s, id, p)} | Follow(s, id, p).Some?
      ensures Follow(s, id, p).value in With(s, w)
      ensures With(s, w)[Follow(s, id, p).value] == s[Follow(s, id, p).value]
    {
      var x := Follow(s, id, p).value;
      assert forall k | 0 <= k < |s[x].slots| :: (x, s[x].slots[k].0) !in w;
      assert ObjWith(x, s[x], w).slots == s[x].slots;
    }
  }
}

/** What the ranks' local tensors mean under a layout, and what a single-axis
    collective does to that meaning. */
module SpmdTensors {
  import opened Sums
  import opened SpmdTypes

  type Coord = map<Axis, int>
  type Mesh = map<Axis, nat>

  /** Values are total on index tuples; only the indices inside the shape matter. */
  datatype Tensor = Tensor(shape: seq<nat>, at: seq<int> -> real)

  /** One local tensor per mesh coordinate. */
  type Locals = Coord -> Tensor

  // ---------- mesh coordinates ----------

  /** Axes outside the mesh have size 1. */
  function Size(mesh: Mesh, a: Axis): nat {
    if a in mesh then mesh[a] else 1
  }

  predicate MeshOk(mesh: Mesh) {
    forall a | a in mesh :: mesh[a] >= 1
  }

  predicate ValidCoord(mesh: Mesh, c: Coord) {
    c.Keys == mesh.Keys && forall a | a in mesh :: 0 <= c[a] < mesh[a]
  }

  function Get(c: Coord, a: Axis): int {
    if a in c then c[a] else 0
  }

  // ---------- nested even shards of one tensor dim ----------

  /** Axes shard a dim of n elements evenly, outermost first. */
  predicate Even(mesh: Mesh, axes: seq<Axis>, n: nat) {
    if axes == [] then true
    else Size(mesh, axes[0]) >= 1 && Splits(n, Size(mesh, axes[0])) && Even(mesh, axes[1..], Share(n, Size(mesh, axes[0])))
  }

  /** The local extent after all the shards. */
  function Extent(mesh: Mesh, axes: seq<Axis>, n: nat): nat
    requires Even(mesh, axes, n)
  {
    if axes == [] then n else Extent(mesh, axes[1..], Share(n, Size(mesh, axes[0])))
  }

  /** The global position of local position i: shard by the first axis, then each slice by the next. */
  function Position(mesh: Mesh, axes: seq<Axis>, c: Coord, n: nat, i: int): int
    requires Even(mesh, axes, n)
  {
    if axes == [] then i
    else
      var m := Share(n, Size(mesh, axes[0]));
      (if Get(c, axes[0]) >= 0 then Offset(Get(c, axes[0]), m) else 0) + Position(mesh, axes[1..], c, m, i)
  }

  /** Sharding once more, innermost. */
  lemma {:induction false} EvenAppend(mesh: Mesh, axes: seq<Axis>, a: Axis, n: nat)
    requires Even(mesh, axes + [a], n)
    ensures Even(mesh, axes, n)
    ensures Size(mesh, a) >= 1 && Splits(Extent(mesh, axes, n), Size(mesh, a))
    ensures Extent(mesh, axes + [a], n) == Share(Extent(mesh, axes, n), Size(mesh, a))
  {
    if axes == [] {
      assert (axes + [a])[1..] == [];
    } else {
      assert (axes + [a])[1..] == axes[1..] + [a];
      EvenAppend(mesh, axes[1..], a, Share(n, Size(mesh, axes[0])));
    }
  }

  /** Local position i of the innermost shard is position c[a] * extent + i of the slice it was cut from. */
  lemma {:induction false} PositionAppend(mesh: Mesh, axes: seq<Axis>, a: Axis, c: Coord, n: nat, i: int)
    requires Even(mesh, axes + [a], n) && Get(c, a) >= 0
    ensures Even(mesh, axes, n)
    ensures Position(mesh, axes + [a], c, n, i) ==
            Position(mesh, axes, c, n, Offset(Get(c, a), Extent(mesh, axes + [a], n)) + i)
  {
    EvenAppend(mesh, axes, a, n);
    if axes == [] {
      assert (axes + [a])[1..] == [];
    } else {
      assert (axes + [a])[1..] == axes[1..] + [a];
      PositionAppend(mesh, axes[1..], a, c, Share(n, Size(mesh, axes[0])), i);
    }
  }

  lemma {:induction false} PositionIgnores(mesh: Mesh, axes: seq<Axis>, c: Coord, a: Axis, j: int, n: nat, i: int)
    requires Even(mesh, axes, n) && a !in axes
    ensures Position(mesh, axes, c[a := j], n, i) == Position(mesh, axes, c, n, i)
  {
    if axes != [] { PositionIgnores(mesh, axes[1..], c, a, j, Share(n, Size(mesh, axes[0])), i); }
  }

  // ---------- layouts as seen by the data ----------

  /** Which axes shard each dim (outermost first), and which hold partial sums. */
  datatype View = View(order: seq<seq<Axis>>, partials: set<Axis>)

  predicate ViewFits(mesh: Mesh, v: View, shape: seq<nat>) {
    |v.order| == |shape| && forall d | 0 <= d < |shape| :: Even(mesh, v.order[d], shape[d])
  }

  function LocalShape(mesh: Mesh, v: View, shape: seq<nat>): (s: seq<nat>)
    requires ViewFits(mesh, v, shape)
    ensures |s| == |shape| && forall d | 0 <= d < |shape| :: s[d] == Extent(mesh, v.order[d], shape[d])
  {
    seq(|shape|, d requires 0 <= d < |shape| => Extent(mesh, v.order[d], shape[d]))
  }

  predicate InShape(idx: seq<int>, shape: seq<nat>) {
    |idx| == |shape| && forall d | 0 <= d < |shape| :: 0 <= idx[d] < shape[d]
  }

  function GlobalIndex(mesh: Mesh, v: View, c: Coord, shape: seq<nat>, idx: seq<int>): (g: seq<int>)
    requires ViewFits(mesh, v, shape) && |idx| == |shape|
    ensures |g| == |shape| && forall d | 0 <= d < |shape| :: g[d] == Position(mesh, v.order[d], c, shape[d], idx[d])
  {
    seq(|shape|, d requires 0 <= d < |shape| => Position(mesh, v.order[d], c, shape[d], idx[d]))
  }

  /** f summed over the partial axes among `axes`, the other coordinates fixed. */
  function Total(mesh: Mesh, axes: seq<Axis>, partials: set<Axis>, c: Coord, f: Coord -> real): real
    decreases |axes|, 0
  {
    if axes == [] then f(c)
    else if axes[0] in partials then TotalAlong(mesh, Size(mesh, axes[0]), axes[0], axes[1..], partials, c, f)
    else Total(mesh, axes[1..], partials, c, f)
  }

  function TotalAlong(mesh: Mesh, n: nat, a: Axis, rest: seq<Axis>, partials: set<Axis>, c: Coord, f: Coord -> real): real
    decreases |rest|, 1 + n
  {
    if n == 0 then 0.0
    else TotalAlong(mesh, n - 1, a, rest, partials, c, f) + Total(mesh, rest, partials, c[a := n - 1], f)
  }

  ghost predicate IsMeshOrder(mesh: Mesh, axes: seq<Axis>) {
    && (forall a :: a in axes <==> a in mesh)
    && forall i, j | 0 <= i < j < |axes| :: axes[i] != axes[j]
  }

  function Entry(locals: Locals, idx: seq<int>): Coord -> real {
    c => locals(c).at(idx)
  }

  /** The locals of every rank together represent the tensor (one per coordinate of the varying axes). */
  ghost predicate Represents(mesh: Mesh, axes: seq<Axis>, v: View, shape: seq<nat>, global: Coord -> (seq<int> -> real), locals: Locals)
    requires ViewFits(mesh, v, shape)
  {
    forall c | ValidCoord(mesh, c) ::
      && locals(c).shape == LocalShape(mesh, v, shape)
      && forall idx | InShape(idx, LocalShape(mesh, v, shape)) ::
           Total(mesh, axes, v.partials, c, Entry(locals, idx)) == global(c)(GlobalIndex(mesh, v, c, shape, idx))
  }

  /** The global tensor does not depend on the coordinate along a. */
  ghost predicate SameAlong(global: Coord -> (seq<int> -> real), a: Axis) {
    forall b: Coord, c: Coord :: EqualExcept(b, c, a) ==> global(b) == global(c)
  }

  predicate EqualExcept(b: Coord, c: Coord, a: Axis) {
    b.Keys == c.Keys && forall x | x in b && x != a :: b[x] == c[x]
  }

  // ---------- laws of partial sums ----------

  lemma {:induction false} TotalAlongIsSum(mesh: Mesh, n: nat, a: Axis, rest: seq<Axis>, partials: set<Axis>, c: Coord,
                                           f: Coord -> real, h: int -> real)
    requires forall j {:trigger h(j)} | 0 <= j < n :: h(j) == Total(mesh, rest, partials, c[a := j], f)
    ensures TotalAlong(mesh, n, a, rest, partials, c, f) == Sum(n, h)
  {
    if n > 0 { TotalAlongIsSum(mesh, n - 1, a, rest, partials, c, f, h); }
  }

  lemma {:induction false} TotalExt(mesh: Mesh, axes: seq<Axis>, partials: set<Axis>, c: Coord, f: Coord -> real, g: Coord -> real)
    requires forall b :: f(b) == g(b)
    ensures Total(mesh, axes, partials, c, f) == Total(mesh, axes, partials, c, g)
    decreases |axes|, 0
  {
    if axes != [] {
      if axes[0] in partials {
        TotalAlongExt(mesh, Size(mesh, axes[0]), axes[0], axes[1..], partials, c, f, g);
      } else {
        TotalExt(mesh, axes[1..], partials, c, f, g);
      }
    }
  }

  lemma {:induction false} TotalAlongExt(mesh: Mesh, n: nat, a: Axis, rest: seq<Axis>, partials: set<Axis>, c: Coord,
                                         f: Coord -> real, g: Coord -> real)
    requires forall b :: f(b) == g(b)
    ensures TotalAlong(mesh, n, a, rest, partials, c, f) == TotalAlong(mesh, n, a, rest, partials, c, g)
    decreases |rest|, 1 + n
  {
    if n > 0 {
      TotalAlongExt(mesh, n - 1, a, rest, partials, c, f, g);
      TotalExt(mesh, rest, partials, c[a := n - 1], f, g);
    }
  }

  /** Two partial sums commute. */
  lemma TotalAlongSwap(mesh: Mesh, m: nat, x: Axis, n: nat, a: Axis, rest: seq<Axis>, partials: set<Axis>, c: Coord,
                       f: Coord -> real, inner: int -> real, outer: int -> real)
    requires x != a
    requires forall i {:trigger inner(i)} | 0 <= i < m :: inner(i) == TotalAlong(mesh, n, a, rest, partials, c[x := i], f)
    requires forall j {:trigger outer(j)} | 0 <= j < n :: outer(j) == TotalAlong(mesh, m, x, rest, partials, c[a := j], f)
    ensures Sum(m, inner) == Sum(n, outer)
  {
    var grid := (i: int, j: int) => Total(mesh, rest, partials, c[x := i][a := j], f);
    SumSwap(m, n, grid);
    forall i | 0 <= i < m ensures inner(i) == Sum(n, j => grid(i, j)) {
      TotalAlongIsSum(mesh, n, a, rest, partials, c[x := i], f, j => grid(i, j));
    }
    SumExt(m, inner, i => Sum(n, j => grid(i, j)));
    forall j | 0 <= j < n ensures outer(j) == Sum(m, i => grid(i, j)) {
      forall i | 0 <= i < m ensures grid(i, j) == Total(mesh, rest, partials, c[a := j][x := i], f) {
        assert c[x := i][a := j] == c[a := j][x := i];
      }
      TotalAlongIsSum(mesh, m, x, rest, partials, c[a := j], f, i => grid(i, j));
    }
    SumExt(n, outer, j => Sum(m, i => grid(i, j)));
  }

  /** Summing f over axis a first, inside, is summing over a outside. */
  lemma {:induction false} TotalPush(mesh: Mesh, axes: seq<Axis>, partials: set<Axis>, c: Coord, n: nat, a: Axis,
                                     f: Coord -> real, g: Coord -> real)
    requires a !in axes
    requires forall b {:trigger g(b)} :: g(b) == TotalAlong(mesh, n, a, [], partials, b, f)
    ensures Total(mesh, axes, partials, c, g) == TotalAlong(mesh, n, a, axes, partials, c, f)
    decreases |axes|
  {
    if axes != [] {
      var x, rest := axes[0], axes[1..];
      var outer := j => Total(mesh, axes, partials, c[a := j], f);
      TotalAlongIsSum(mesh, n, a, axes, partials, c, f, outer);
      if x in partials {
        var m := Size(mesh, x);
        var inner := i => Total(mesh, rest, partials, c[x := i], g);
        TotalAlongIsSum(mesh, m, x, rest, partials, c, g, inner);
        forall i | 0 <= i < m ensures inner(i) == TotalAlong(mesh, n, a, rest, partials, c[x := i], f) {
          TotalPush(mesh, rest, partials, c[x := i], n, a, f, g);
        }
        TotalAlongSwap(mesh, m, x, n, a, rest, partials, c, f, inner, outer);
      } else {
        TotalPush(mesh, rest, partials, c, n, a, f, g);
        TotalAlongIsSum(mesh, n, a, rest, partials, c, f, outer);
      }
    }
  }

  lemma {:induction false} TotalSamePartials(mesh: Mesh, axes: seq<Axis>, p: set<Axis>, q: set<Axis>, c: Coord, f: Coord -> real)
    requires forall a | a in axes :: a in p <==> a in q
    ensures Total(mesh, axes, p, c, f) == Total(mesh, axes, q, c, f)
    decreases |axes|, 0
  {
    if axes != [] {
      if axes[0] in p {
        AlongSamePartials(mesh, Size(mesh, axes[0]), axes[0], axes[1..], p, q, c, f);
      } else {
        TotalSamePartials(mesh, axes[1..], p, q, c, f);
      }
    }
  }

  lemma {:induction false} AlongSamePartials(mesh: Mesh, n: nat, x: Axis, rest: seq<Axis>, p: set<Axis>, q: set<Axis>, c: Coord, f: Coord -> real)
    requires forall a | a in rest :: a in p <==> a in q
    ensures TotalAlong(mesh, n, x, rest, p, c, f) == TotalAlong(mesh, n, x, rest, q, c, f)
    decreases |rest|, 1 + n
  {
    if n > 0 {
      AlongSamePartials(mesh, n - 1, x, rest, p, q, c, f);
      TotalSamePartials(mesh, rest, p, q, c[x := n - 1], f);
    }
  }

  /** Reducing axis a makes it drop out of the partial axes. */
  lemma {:induction false} TotalReduce(mesh: Mesh, axes: seq<Axis>, partials: set<Axis>, c: Coord, a: Axis,
                                       f: Coord -> real, g: Coord -> real)
    requires a in axes && a in partials
    requires forall i, j | 0 <= i < j < |axes| :: axes[i] != axes[j]
    requires forall b {:trigger g(b)} :: g(b) == TotalAlong(mesh, Size(mesh, a), a, [], partials, b, f)
    ensures Total(mesh, axes, partials - {a}, c, g) == Total(mesh, axes, partials, c, f)
    decreases |axes|, 0
  {
    var x, rest := axes[0], axes[1..];
    if x == a {
      TotalSamePartials(mesh, rest, partials - {a}, partials, c, g);
      TotalPush(mesh, rest, partials, c, Size(mesh, a), a, f, g);
    } else if x in partials {
      AlongReduce(mesh, Size(mesh, x), x, rest, partials, c, a, f, g);
    } else {
      TotalReduce(mesh, rest, partials, c, a, f, g);
    }
  }

  lemma {:induction false} AlongReduce(mesh: Mesh, n: nat, x: Axis, rest: seq<Axis>, partials: set<Axis>, c: Coord, a: Axis,
                                       f: Coord -> real, g: Coord -> real)
    requires a in rest && a in partials
    requires forall i, j | 0 <= i < j < |rest| :: rest[i] != rest[j]
    requires forall b {:trigger g(b)} :: g(b) == TotalAlong(mesh, Size(mesh, a), a, [], partials, b, f)
    ensures TotalAlong(mesh, n, x, rest, partials - {a}, c, g) == TotalAlong(mesh, n, x, rest, partials, c, f)
    decreases |rest|, 1 + n
  {
    if n > 0 {
      AlongReduce(mesh, n - 1, x, rest, partials, c, a, f, g);
      TotalReduce(mesh, rest, partials, c[x := n - 1], a, f, g);
    }
  }

  /** Reading everything at coordinate q of a non-partial axis. */
  lemma {:induction false} TotalFix(mesh: Mesh, axes: seq<Axis>, partials: set<Axis>, c: Coord, a: Axis, q: int,
                                    f: Coord -> real, g: Coord -> real)
    requires a !in partials
    requires forall b {:trigger g(b)} :: g(b) == f(b[a := q])
    ensures Total(mesh, axes, partials, c, g) == Total(mesh, axes, partials, c[a := q], f)
    decreases |axes|, 0
  {
    if axes != [] {
      if axes[0] in partials {
        AlongFix(mesh, Size(mesh, axes[0]), axes[0], axes[1..], partials, c, a, q, f, g);
      } else {
        TotalFix(mesh, axes[1..], partials, c, a, q, f, g);
      }
    }
  }

  lemma {:induction false} AlongFix(mesh: Mesh, n: nat, x: Axis, rest: seq<Axis>, partials: set<Axis>, c: Coord, a: Axis, q: int,
                                    f: Coord -> real, g: Coord -> real)
    requires a !in partials && x in partials
    requires forall b {:trigger g(b)} :: g(b) == f(b[a := q])
    ensures TotalAlong(mesh, n, x, rest, partials, c, g) == TotalAlong(mesh, n, x, rest, partials, c[a := q], f)
    decreases |rest|, 1 + n
  {
    if n > 0 {
      AlongFix(mesh, n - 1, x, rest, partials, c, a, q, f, g);
      TotalFix(mesh, rest, partials, c[x := n - 1], a, q, f, g);
      assert c[x := n - 1][a := q] == c[a := q][x := n - 1];
    }
  }

  /** f and g need only agree where the non-partial axis a keeps its coordinate. */
  lemma {:induction false} TotalAgree(mesh: Mesh, axes: seq<Axis>, partials: set<Axis>, c: Coord, a: Axis, j: int,
                                      f: Coord -> real, g: Coord -> real)
    requires a !in partials && Get(c, a) == j
    requires forall b {:trigger g(b)} :: Get(b, a) == j ==> g(b) == f(b)
    ensures Total(mesh, axes, partials, c, g) == Total(mesh, axes, partials, c, f)
    decreases |axes|, 0
  {
    if axes != [] {
      if axes[0] in partials {
        AlongAgree(mesh, Size(mesh, axes[0]), axes[0], axes[1..], partials, c, a, j, f, g);
      } else {
        TotalAgree(mesh, axes[1..], partials, c, a, j, f, g);
      }
    }
  }

  lemma {:induction false} AlongAgree(mesh: Mesh, n: nat, x: Axis, rest: seq<Axis>, partials: set<Axis>, c: Coord, a: Axis, j: int,
                                      f: Coord -> real, g: Coord -> real)
    requires a !in partials && x in partials && Get(c, a) == j
    requires forall b {:trigger g(b)} :: Get(b, a) == j ==> g(b) == f(b)
    ensures TotalAlong(mesh, n, x, rest, partials, c, g) == TotalAlong(mesh, n, x, rest, partials, c, f)
    decreases |rest|, 1 + n
  {
    if n > 0 {
      AlongAgree(mesh, n - 1, x, rest, partials, c, a, j, f, g);
      TotalAgree(mesh, rest, partials, c[x := n - 1], a, j, f, g);
    }
  }
}

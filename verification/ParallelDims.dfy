/** Degrees of parallelism, their validation, and the meshes built over one world of ranks
    (torchtitan/distributed/parallel_dims.py, torchtitan/components/metrics.py). */
module ParallelDims {
  import opened MeshViews
  import opened Sums
  import opened Wrappers

  datatype Axis = Pp | Batch | Loss | Dp | DpReplicate | DpShard | Fsdp | Cp | Tp | Ep | Efsdp

  datatype Backend = PartialDTensor | SpmdTypes

  /** Degrees that passed validation, dp_shard filled in. */
  datatype Dims = Dims(dpReplicate: pos, dpShard: pos, cp: pos, tp: pos, pp: pos, ep: pos)

  /** The ranks of one pipeline stage and one replica, shared by the dense and the sparse axes. */
  function Region(d: Dims): pos { Times(d.dpShard, Times(d.cp, d.tp)) }

  function WorldSize(d: Dims): pos { Times(Times(d.pp, d.dpReplicate), Region(d)) }

  predicate EpDivides(d: Dims) { Rem(Region(d), d.ep) == 0 }

  lemma EfsdpTimesEp(d: Dims)
    requires EpDivides(d)
    ensures Quot(Region(d), d.ep) >= 1 && Times(Quot(Region(d), d.ep), d.ep) == Region(d)
  {
    QuotRem(Region(d), d.ep);
  }

  /** The whole expert region is shared out between efsdp and ep. */
  function EfsdpDegree(d: Dims): (e: pos)
    requires EpDivides(d)
    ensures Times(e, d.ep) == Region(d)
  {
    EfsdpTimesEp(d);
    Quot(Region(d), d.ep)
  }

  // ---------- the five views of the world ----------

  function BatchDegree(d: Dims): pos { Times(d.dpReplicate, d.dpShard) }

  function DataLoading(d: Dims): seq<pos> { [d.pp, BatchDegree(d), d.cp, d.tp] }

  function Storage(d: Dims): seq<pos> { [d.pp, d.dpReplicate, d.dpShard, d.cp, d.tp] }

  function DenseFsdp(d: Dims): seq<pos> { [d.pp, d.dpReplicate, Times(d.dpShard, d.cp), d.tp] }

  function Sparse(d: Dims): seq<pos>
    requires EpDivides(d)
  {
    [d.pp, d.dpReplicate, EfsdpDegree(d), d.ep]
  }

  /** The view every other one refines into or folds out of: pipeline rank, replica, place in the region. */
  function Regions(d: Dims): seq<pos> { [d.pp, d.dpReplicate, Region(d)] }

  lemma RegionsProduct(d: Dims)
    ensures Product(Regions(d)) == WorldSize(d)
  {
    hide Times;
    var r := Regions(d);
    assert r[..2] == [d.pp, d.dpReplicate] && r[..2][..1] == [d.pp] && [d.pp][..0] == [];
    assert Product([d.pp]) == Times(1, d.pp) == d.pp by { One(d.pp); }
  }

  lemma One(a: pos)
    ensures Times(1, a) == a
  {
  }

  lemma StorageFolds(rank: nat, d: Dims)
    ensures Product(Storage(d)) == WorldSize(d)
    ensures var c, f := Coordinates(rank, Storage(d)), Coordinates(rank, Regions(d));
            f == [c[0], c[1], At(c[2], Times(d.cp, d.tp), At(c[3], d.tp, c[4]))]
  {
    hide Times, Quot, Rem, At, Product, Coordinates;
    FoldAxes(rank, [d.pp, d.dpReplicate, d.dpShard], d.cp, d.tp, []);
    assert [d.pp, d.dpReplicate, d.dpShard] + [d.cp, d.tp] + [] == Storage(d);
    assert [d.pp, d.dpReplicate, d.dpShard] + [Times(d.cp, d.tp)] + []
        == [d.pp, d.dpReplicate, d.dpShard, Times(d.cp, d.tp)];
    FoldAxes(rank, [d.pp, d.dpReplicate], d.dpShard, Times(d.cp, d.tp), []);
    assert [d.pp, d.dpReplicate] + [d.dpShard, Times(d.cp, d.tp)] + []
        == [d.pp, d.dpReplicate, d.dpShard, Times(d.cp, d.tp)];
    assert [d.pp, d.dpReplicate] + [Region(d)] + [] == Regions(d);
    RegionsProduct(d);
  }

  /** The dp (and batch) coordinate is dp_replicate * |dp_shard| + dp_shard; pp, cp and tp are as in the storage mesh. */
  lemma DpFoldsReplicateAndShard(rank: nat, d: Dims)
    ensures Product(DataLoading(d)) == WorldSize(d)
    ensures var c, f := Coordinates(rank, Storage(d)), Coordinates(rank, DataLoading(d));
            f == FoldedAt(c, 1, d.dpShard) == [c[0], c[1] * d.dpShard + c[2], c[3], c[4]]
  {
    hide Times, Quot, Rem, Product, Coordinates;
    FoldAxes(rank, [d.pp], d.dpReplicate, d.dpShard, [d.cp, d.tp]);
    assert [d.pp] + [d.dpReplicate, d.dpShard] + [d.cp, d.tp] == Storage(d);
    assert [d.pp] + [BatchDegree(d)] + [d.cp, d.tp] == DataLoading(d);
    StorageFolds(rank, d);
  }

  /** The fsdp coordinate is dp_shard * |cp| + cp. */
  lemma FsdpFoldsShardAndCp(rank: nat, d: Dims)
    ensures Product(DenseFsdp(d)) == WorldSize(d)
    ensures var c, f := Coordinates(rank, Storage(d)), Coordinates(rank, DenseFsdp(d));
            f == FoldedAt(c, 2, d.cp) == [c[0], c[1], c[2] * d.cp + c[3], c[4]]
  {
    hide Times, Quot, Rem, Product, Coordinates;
    FoldAxes(rank, [d.pp, d.dpReplicate], d.dpShard, d.cp, [d.tp]);
    assert [d.pp, d.dpReplicate] + [d.dpShard, d.cp] + [d.tp] == Storage(d);
    assert [d.pp, d.dpReplicate] + [Times(d.dpShard, d.cp)] + [d.tp] == DenseFsdp(d);
    StorageFolds(rank, d);
  }

  /** The sparse view re-cuts the region: the pp and dp_replicate coordinates are those of the storage mesh. */
  lemma SparseFolds(rank: nat, d: Dims)
    requires EpDivides(d)
    ensures Product(Sparse(d)) == WorldSize(d)
    ensures var c, f := Coordinates(rank, Storage(d)), Coordinates(rank, Sparse(d));
            f[0] == c[0] && f[1] == c[1] &&
            f[2] * d.ep + f[3] == c[2] * (d.cp * d.tp) + (c[3] * d.tp + c[4])
  {
    hide Times, Quot, Rem, Product, Coordinates, EpDivides;
    var e := EfsdpDegree(d);
    FoldAxes(rank, [d.pp, d.dpReplicate], e, d.ep, []);
    assert [d.pp, d.dpReplicate] + [e, d.ep] + [] == Sparse(d);
    assert [d.pp, d.dpReplicate] + [Times(e, d.ep)] + [] == Regions(d);
    StorageFolds(rank, d);
    RegionsProduct(d);
    var s := Coordinates(rank, Sparse(d));
    assert FoldedAt(s, 2, d.ep) == [s[0], s[1], At(s[2], d.ep, s[3])];
  }

  // ---------- meshes cut from a view, and their groups ----------

  /** The axes lo..hi of a view of the world; `names` is shorter than hi - lo after a flatten. */
  datatype Mesh = Mesh(names: seq<Axis>, view: seq<pos>, lo: nat, hi: nat)

  predicate Cut(m: Mesh) { m.lo <= m.hi <= |m.view| }

  function Size(m: Mesh): pos
    requires Cut(m)
  {
    Product(m.view[m.lo..m.hi])
  }

  /** Two ranks are in one group of the mesh when they agree on every axis it does not hold. */
  predicate SameGroup(m: Mesh, r: nat, s: nat)
    requires Cut(m)
  {
    var c, e := Coordinates(r, m.view), Coordinates(s, m.view);
    c[..m.lo] == e[..m.lo] && c[m.hi..] == e[m.hi..]
  }

  /** The rank's number within its group. */
  function Position(m: Mesh, r: nat): nat
    requires Cut(m)
  {
    RankAt(Coordinates(r, m.view)[m.lo..m.hi], m.view[m.lo..m.hi])
  }

  /** The member of r's group that is number p. */
  function Member(m: Mesh, r: nat, p: nat): nat
    requires Cut(m)
  {
    var c := Coordinates(r, m.view);
    RankAt(c[..m.lo] + Coordinates(p, m.view[m.lo..m.hi]) + c[m.hi..], m.view)
  }

  /** Every group has exactly one rank of the world for each number below the mesh's size. */
  lemma GroupIsFull(m: Mesh, r: nat, p: nat)
    requires Cut(m) && r < Product(m.view) && p < Size(m)
    ensures var s := Member(m, r, p); s < Product(m.view) && SameGroup(m, r, s) && Position(m, s) == p
    ensures forall s: nat | s < Product(m.view) && SameGroup(m, r, s) && Position(m, s) == p :: s == Member(m, r, p)
  {
    hide Coordinates, RankAt, Product;
    var c, part := Coordinates(r, m.view), m.view[m.lo..m.hi];
    var q := Coordinates(p, part);
    CoordinatesInside(r, m.view);
    RankOfCoordinates(p, part);
    CoordinatesInside(p, part);
    var e := c[..m.lo] + q + c[m.hi..];
    CoordinatesOfRank(e, m.view);
    assert e[m.lo..m.hi] == q && e[..m.lo] == c[..m.lo] && e[m.hi..] == c[m.hi..];
    forall s: nat | s < Product(m.view) && SameGroup(m, r, s) && Position(m, s) == p
      ensures s == Member(m, r, p)
    {
      var f := Coordinates(s, m.view);
      RankOfCoordinates(s, m.view);
      CoordinatesInside(s, m.view);
      CoordinatesOfRank(f[m.lo..m.hi], part);
      assert f == f[..m.lo] + f[m.lo..m.hi] + f[m.hi..];
    }
  }

  /** Every rank's own number is below the size. */
  lemma PositionBelow(m: Mesh, r: nat)
    requires Cut(m) && r < Product(m.view)
    ensures Position(m, r) < Size(m) && Member(m, r, Position(m, r)) == r
  {
    hide Coordinates, RankAt, Product;
    var c, part := Coordinates(r, m.view), m.view[m.lo..m.hi];
    RankOfCoordinates(r, m.view);
    CoordinatesInside(r, m.view);
    CoordinatesOfRank(c[m.lo..m.hi], part);
    assert c == c[..m.lo] + c[m.lo..m.hi] + c[m.hi..];
  }

  // ---------- the meshes of a run ----------

  /** The views one run cuts its axes from. */
  datatype Views = Views(loading: seq<pos>, dense: seq<pos>, sparse: seq<pos>)

  /** Which axis of which view is behind a name. */
  function CutOf(v: Views, a: Axis): Mesh {
    match a
    case Pp => Mesh([Pp], v.loading, 0, 1)
    case Batch => Mesh([Batch], v.loading, 1, 2)
    case Loss => Mesh([Loss], v.loading, 1, 3)
    case Dp => Mesh([Dp], v.loading, 1, 2)
    case DpReplicate => Mesh([DpReplicate], v.dense, 1, 2)
    case DpShard => Mesh([DpShard], v.dense, 2, 3)
    case Fsdp => Mesh([Fsdp], v.dense, 2, 3)
    case Cp => Mesh([Cp], v.loading, 2, 3)
    case Tp => Mesh([Tp], v.loading, 3, 4)
    case Ep => Mesh([Ep], v.sparse, 3, 4)
    case Efsdp => Mesh([Efsdp], v.sparse, 2, 3)
  }

  function ViewsOf(d: Dims, backend: Backend): Views
    requires EpDivides(d)
  {
    Views(DataLoading(d), if backend == SpmdTypes then Storage(d) else DenseFsdp(d), Sparse(d))
  }

  /** Which axes the backend has a mesh for. */
  predicate Uses(backend: Backend, a: Axis) {
    match a
    case Dp => backend == SpmdTypes
    case DpShard => backend == SpmdTypes
    case Fsdp => backend == PartialDTensor
    case _ => true
  }

  /** The mesh behind each axis name (build_mesh). */
  function AxisMesh(d: Dims, backend: Backend, a: Axis): (m: Mesh)
    requires EpDivides(d) && Uses(backend, a)
    ensures Cut(m)
  {
    CutOf(ViewsOf(d, backend), a)
  }

  /** The storage coordinates a dense axis stands for: pp, dp_replicate, dp_shard, cp, tp are 0 to 4. */
  function Covered(a: Axis): (r: (nat, nat))
    requires a != Ep && a != Efsdp
    ensures r.0 <= r.1 <= 5
  {
    match a
    case Pp => (0, 1)
    case Batch => (1, 3)
    case Loss => (1, 4)
    case Dp => (1, 3)
    case DpReplicate => (1, 2)
    case DpShard => (2, 3)
    case Fsdp => (2, 4)
    case Cp => (3, 4)
    case Tp => (4, 5)
  }

  lemma SameGroupPointwise(m: Mesh, r: nat, s: nat)
    requires Cut(m)
    ensures SameGroup(m, r, s) <==> AgreeOutside(Coordinates(r, m.view), Coordinates(s, m.view), m.lo, m.hi)
  {
    hide Coordinates;
    var c, e := Coordinates(r, m.view), Coordinates(s, m.view);
    if AgreeOutside(c, e, m.lo, m.hi) {
      assert c[..m.lo] == e[..m.lo] && c[m.hi..] == e[m.hi..];
    }
    if SameGroup(m, r, s) {
      forall i | 0 <= i < |c| && !(m.lo <= i < m.hi) ensures c[i] == e[i] {
        if i < m.lo {
          assert c[i] == c[..m.lo][i] && e[i] == e[..m.lo][i];
        } else {
          assert c[i] == c[m.hi..][i - m.hi] && e[i] == e[m.hi..][i - m.hi];
        }
      }
    }
  }

  lemma CutOfDataLoading(d: Dims, names: seq<Axis>, lo: nat, hi: nat, r: nat, s: nat)
    requires lo <= hi < 5
    ensures SameGroup(Mesh(names, DataLoading(d), lo, hi), r, s)
       <==> AgreeOutside(Coordinates(r, Storage(d)), Coordinates(s, Storage(d)), Unfolded(1, lo), Unfolded(1, hi))
  {
    hide Coordinates, Product, Times, SameGroup, FoldedAt, AgreeOutside;
    SameGroupPointwise(Mesh(names, DataLoading(d), lo, hi), r, s);
    CoordinatesInside(r, Storage(d));
    CoordinatesInside(s, Storage(d));
    DpFoldsReplicateAndShard(r, d);
    DpFoldsReplicateAndShard(s, d);
    AgreeFolded(Coordinates(r, Storage(d)), Coordinates(s, Storage(d)), 1, Storage(d)[2], lo, hi);
  }

  lemma CutOfDenseFsdp(d: Dims, names: seq<Axis>, lo: nat, hi: nat, r: nat, s: nat)
    requires lo <= hi < 5
    ensures SameGroup(Mesh(names, DenseFsdp(d), lo, hi), r, s)
       <==> AgreeOutside(Coordinates(r, Storage(d)), Coordinates(s, Storage(d)), Unfolded(2, lo), Unfolded(2, hi))
  {
    hide Coordinates, Product, Times, SameGroup, FoldedAt, AgreeOutside;
    SameGroupPointwise(Mesh(names, DenseFsdp(d), lo, hi), r, s);
    CoordinatesInside(r, Storage(d));
    CoordinatesInside(s, Storage(d));
    FsdpFoldsShardAndCp(r, d);
    FsdpFoldsShardAndCp(s, d);
    AgreeFolded(Coordinates(r, Storage(d)), Coordinates(s, Storage(d)), 2, Storage(d)[3], lo, hi);
  }

  /** Whatever view an axis was cut from, its group is the ranks that agree on every storage coordinate it does not
      cover. In particular a loss group is exactly the ranks sharing their pp and tp coordinates. */
  lemma DenseAxisGroups(d: Dims, backend: Backend, a: Axis, r: nat, s: nat)
    requires EpDivides(d) && a != Ep && a != Efsdp && Uses(backend, a)
    ensures SameGroup(AxisMesh(d, backend, a), r, s)
       <==> AgreeOutside(Coordinates(r, Storage(d)), Coordinates(s, Storage(d)), Covered(a).0, Covered(a).1)
  {
    hide Coordinates, Product, Times, SameGroup, EpDivides, AgreeOutside, Storage, DataLoading, DenseFsdp;
    var m := AxisMesh(d, backend, a);
    if a == DpShard || (a == DpReplicate && backend == SpmdTypes) {
      SameGroupPointwise(m, r, s);
    } else if a == DpReplicate || a == Fsdp {
      CutOfDenseFsdp(d, m.names, m.lo, m.hi, r, s);
    } else {
      CutOfDataLoading(d, m.names, m.lo, m.hi, r, s);
    }
  }

  /** An expert group, and an efsdp group, stays inside one pipeline stage and one replica. */
  lemma ExpertGroupsStayInRegion(d: Dims, backend: Backend, r: nat, s: nat)
    requires EpDivides(d)
    requires SameGroup(AxisMesh(d, backend, Ep), r, s) || SameGroup(AxisMesh(d, backend, Efsdp), r, s)
    ensures Coordinates(r, Storage(d))[0] == Coordinates(s, Storage(d))[0]
    ensures Coordinates(r, Storage(d))[1] == Coordinates(s, Storage(d))[1]
  {
    hide Coordinates, Product, Times, EpDivides;
    SparseFolds(r, d);
    SparseFolds(s, d);
    var c, e := Coordinates(r, Sparse(d)), Coordinates(s, Sparse(d));
    assert c[..3][..2] == c[..2] && e[..3][..2] == e[..2];
    assert c[0] == c[..2][0] && c[1] == c[..2][1] && e[0] == e[..2][0] && e[1] == e[..2][1];
  }

  /** The ranks of one stage and replica are exactly the ranks an efsdp group and an ep group reach together. */
  lemma RegionIsEfsdpByEp(d: Dims, r: nat, s: nat)
    requires EpDivides(d)
    ensures Coordinates(r, Storage(d))[..2] == Coordinates(s, Storage(d))[..2]
       <==> SameGroup(Mesh([Efsdp, Ep], Sparse(d), 2, 4), r, s)
  {
    hide Coordinates, Product, Times, EpDivides;
    SparseFolds(r, d);
    SparseFolds(s, d);
    var c, e := Coordinates(r, Sparse(d)), Coordinates(s, Sparse(d));
    var x, y := Coordinates(r, Storage(d)), Coordinates(s, Storage(d));
    assert c[..2] == [c[0], c[1]] && e[..2] == [e[0], e[1]] && x[..2] == [x[0], x[1]] && y[..2] == [y[0], y[1]];
    assert c[4..] == [] == e[4..];
  }

  // ---------- the rank that reports metrics ----------

  /** _get_metrics_rank */
  function MetricsRank(d: Dims, zbv: bool): nat {
    if d.pp == 1 || zbv then 0 else Quot(WorldSize(d), d.pp) * (d.pp - 1)
  }

  function StageSize(d: Dims): pos { Times(d.dpReplicate, Region(d)) }

  /** The pipeline coordinate is the rank divided by the size of a stage. */
  lemma StageOfRank(rank: nat, d: Dims)
    ensures Coordinates(rank, Storage(d))[0] == Rem(Quot(rank, StageSize(d)), d.pp)
    ensures WorldSize(d) == Times(d.pp, StageSize(d))
  {
    hide Quot, Rem, Product, Coordinates, Times;
    StorageFolds(rank, d);
    FoldAxes(rank, [d.pp], d.dpReplicate, Region(d), []);
    assert [d.pp] + [d.dpReplicate, Region(d)] + [] == Regions(d);
    var v := [d.pp] + [StageSize(d)] + [];
    assert v == [d.pp, StageSize(d)] && v[..1] == [d.pp] && [d.pp][..0] == [];
    TwoAxes(rank, d.pp, StageSize(d));
    Associates(d.pp, d.dpReplicate, Region(d));
  }

  lemma TwoAxes(rank: nat, a: pos, b: pos)
    ensures Coordinates(rank, [a, b])[0] == Rem(Quot(rank, b), a)
  {
    hide Quot, Rem;
    assert [a, b][..1] == [a] && [a][..0] == [];
  }

  /** With a pipeline and any schedule but ZBV, metrics come from the first rank whose stage is the last. */
  lemma MetricsRankIsFirstOfLastStage(d: Dims)
    requires d.pp > 1
    ensures var m := MetricsRank(d, false);
            m < WorldSize(d) && Coordinates(m, Storage(d))[0] == d.pp - 1 &&
            forall r: nat | r < m :: Coordinates(r, Storage(d))[0] < d.pp - 1
  {
    hide Product, Coordinates, Region;
    var size := StageSize(d);
    var m := MetricsRank(d, false);
    StageOfRank(m, d);
    QuotientUnique(WorldSize(d), d.pp, size, 0);
    QuotientUnique(m, size, d.pp - 1, 0);
    QuotientUnique(d.pp - 1, d.pp, 0, d.pp - 1);
    AtBelow(d.pp - 1, d.pp, size, 0);
    forall r: nat | r < m
      ensures Coordinates(r, Storage(d))[0] < d.pp - 1
    {
      StageOfRank(r, d);
      var q := r / size;
      QuotRem(r, size);
      AtBelow(q, d.pp - 1, size, r % size);
      QuotientUnique(q, d.pp, 0, q);
    }
  }

  // ---------- validation and construction ----------

  datatype Error = BadDegree | BadShardDegree | WorldMismatch | EpDoesNotDivide | BadMesh(axis: Axis)

  /** The size each axis must have (_validate_meshes). */
  function ExpectedSize(d: Dims, a: Axis): pos
    requires EpDivides(d)
  {
    match a
    case Pp => d.pp
    case Batch => BatchDegree(d)
    case Loss => Times(BatchDegree(d), d.cp)
    case Dp => BatchDegree(d)
    case DpReplicate => d.dpReplicate
    case DpShard => d.dpShard
    case Fsdp => Times(d.dpShard, d.cp)
    case Cp => d.cp
    case Tp => d.tp
    case Ep => d.ep
    case Efsdp => EfsdpDegree(d)
  }

  function Names(backend: Backend): seq<Axis> {
    [Pp, Batch, Loss, DpReplicate, Cp, Tp, Ep, Efsdp] + if backend == SpmdTypes then [Dp, DpShard] else [Fsdp]
  }

  lemma NamesAreUsed(backend: Backend)
    ensures forall a :: a in Names(backend) <==> Uses(backend, a)
  {
    var names := Names(backend);
    assert names[0] == Pp && names[1] == Batch && names[2] == Loss && names[3] == DpReplicate;
    assert names[4] == Cp && names[5] == Tp && names[6] == Ep && names[7] == Efsdp;
    assert if backend == SpmdTypes then names[8] == Dp && names[9] == DpShard else names[8] == Fsdp;
  }

  lemma SingleSize(view: seq<pos>, k: nat)
    requires k < |view|
    ensures Product(view[k..k + 1]) == view[k]
  {
    assert view[k..k + 1] == [view[k]] && [view[k]][..0] == [];
    One(view[k]);
  }

  lemma PairSize(view: seq<pos>, k: nat)
    requires k + 1 < |view|
    ensures Product(view[k..k + 2]) == Times(view[k], view[k + 1])
  {
    var v := view[k..k + 2];
    SingleSize(view, k);
    assert v[..1] == view[k..k + 1] && v[1] == view[k + 1];
  }

  /** Every mesh has the size its axis must have. */
  lemma SizeOfAxis(d: Dims, backend: Backend, a: Axis)
    requires EpDivides(d) && Uses(backend, a)
    ensures Size(AxisMesh(d, backend, a)) == ExpectedSize(d, a)
  {
    hide Product, Times, EpDivides;
    var m := AxisMesh(d, backend, a);
    if a == Loss {
      PairSize(m.view, 1);
      assert Size(m) == Times(m.view[1], m.view[2]);
    } else {
      SingleSize(m.view, m.lo);
      assert m.hi == m.lo + 1;
      assert m.view[m.lo] == ExpectedSize(d, a);
    }
  }

  lemma SizesMatch(d: Dims, backend: Backend)
    requires EpDivides(d)
    ensures forall a | Uses(backend, a) :: Size(AxisMesh(d, backend, a)) == ExpectedSize(d, a)
  {
    forall a | Uses(backend, a) ensures Size(AxisMesh(d, backend, a)) == ExpectedSize(d, a) {
      SizeOfAxis(d, backend, a);
    }
  }

  class ParallelDims {
    const dpReplicate: int
    var dpShard: int
    const cp: int
    const tp: int
    const pp: int
    const ep: int
    const worldSize: int
    const backend: Backend
    var singleAxisMeshes: map<Axis, Mesh>

    constructor (dpReplicate: int, dpShard: int, cp: int, tp: int, pp: int, ep: int, worldSize: int,
                 backend: Backend)
      ensures this.dpReplicate == dpReplicate && this.dpShard == dpShard && this.cp == cp && this.tp == tp
      ensures this.pp == pp && this.ep == ep && this.worldSize == worldSize && this.backend == backend
      ensures singleAxisMeshes == map[]
    {
      this.dpReplicate, this.dpShard, this.cp, this.tp := dpReplicate, dpShard, cp, tp;
      this.pp, this.ep, this.worldSize, this.backend := pp, ep, worldSize, backend;
      singleAxisMeshes := map[];
    }

    /** The run could use this shard degree: the degrees multiply to the world and ep divides the region. */
    predicate Fits(shard: int) {
      dpReplicate >= 1 && cp >= 1 && tp >= 1 && pp >= 1 && ep >= 1 && shard >= 1 &&
      Ranks(shard) == worldSize && SparseRegion(shard) % ep == 0
    }

    function Ranks(shard: int): int { dpReplicate * shard * cp * tp * pp }

    function SparseRegion(shard: int): int { shard * cp * tp }

    /** d is the run's degrees, with some shard degree, and fills its world. */
    predicate Runs(d: Dims) {
      && d.dpReplicate == dpReplicate && d.cp == cp && d.tp == tp && d.pp == pp && d.ep == ep
      && Product(Storage(d)) == worldSize && Region(d) % d.ep == 0
    }

    lemma FitsRuns(shard: int)
      ensures Fits(shard) <==> exists d: Dims :: Runs(d) && d.dpShard == shard
    {
      if Fits(shard) {
        var d := Dims(dpReplicate, shard, cp, tp, pp, ep);
        StorageFolds(0, d);
        WorldIsProduct(d);
        RegionIsProduct(shard, cp, tp);
        assert Runs(d);
      }
      if d: Dims :| Runs(d) && d.dpShard == shard {
        StorageFolds(0, d);
        WorldIsProduct(d);
        RegionIsProduct(shard, cp, tp);
      }
    }

    function Degrees(): (d: Dims)
      requires Fits(dpShard)
      reads this
      ensures EpDivides(d)
    {
      RegionIsProduct(dpShard, cp, tp);
      Dims(dpReplicate, dpShard, cp, tp, pp, ep)
    }

    /** Builds the mesh of every axis; the size check at the end never fails. */
    method BuildMesh() returns (e: Option<Error>)
      requires Fits(dpShard)
      modifies this`singleAxisMeshes
      ensures e == None
      ensures forall a :: a in singleAxisMeshes <==> Uses(backend, a)
      ensures forall a | a in singleAxisMeshes :: singleAxisMeshes[a] == AxisMesh(Degrees(), backend, a)
    {
      hide Product, Size, ExpectedSize, Names, Uses, CutOf;
      ghost var d := Degrees();
      var batch := Times(dpReplicate, dpShard);
      var fsdp := Times(dpShard, cp);
      EfsdpTimesEp(d);
      Associates(dpShard, cp, tp);
      var efsdp := Quot(Times(fsdp, tp), ep);
      var dataLoading := [pp, batch, cp, tp];
      var sparse := [pp, dpReplicate, efsdp, ep];
      var dense;
      if backend == SpmdTypes {
        dense := [pp, dpReplicate, dpShard, cp, tp];
      } else {
        dense := [pp, dpReplicate, fsdp, tp];
      }
      assert Views(dataLoading, dense, sparse) == ViewsOf(d, backend);
      SetAxes(Views(dataLoading, dense, sparse));
      SizesMatch(d, backend);
      e := ValidateMeshes();
    }

    method SetAxes(v: Views)
      modifies this`singleAxisMeshes
      ensures forall a :: a in singleAxisMeshes <==> Uses(backend, a)
      ensures forall a | a in singleAxisMeshes :: singleAxisMeshes[a] == CutOf(v, a)
    {
      var meshes := map[
        Pp := Mesh([Pp], v.loading, 0, 1),
        Batch := Mesh([Batch], v.loading, 1, 2),
        Loss := Mesh([Loss], v.loading, 1, 3),
        DpReplicate := Mesh([DpReplicate], v.dense, 1, 2),
        Cp := Mesh([Cp], v.loading, 2, 3),
        Tp := Mesh([Tp], v.loading, 3, 4),
        Ep := Mesh([Ep], v.sparse, 3, 4),
        Efsdp := Mesh([Efsdp], v.sparse, 2, 3)];
      assert forall a :: a in meshes <==> a != Dp && a != DpShard && a != Fsdp;
      assert forall a | a in meshes :: meshes[a] == CutOf(v, a);
      singleAxisMeshes := meshes;
      if backend == SpmdTypes {
        singleAxisMeshes := singleAxisMeshes[Dp := Mesh([Dp], v.loading, 1, 2)];
        singleAxisMeshes := singleAxisMeshes[DpShard := Mesh([DpShard], v.dense, 2, 3)];
      } else {
        singleAxisMeshes := singleAxisMeshes[Fsdp := Mesh([Fsdp], v.dense, 2, 3)];
      }
    }

    method ValidateMeshes() returns (e: Option<Error>)
      requires Fits(dpShard)
      requires forall a | Uses(backend, a) :: a in singleAxisMeshes && Cut(singleAxisMeshes[a])
      ensures e.None?
         <==> forall a | Uses(backend, a) :: Size(singleAxisMeshes[a]) == ExpectedSize(Degrees(), a)
    {
      NamesAreUsed(backend);
      hide Names, Uses, Size, ExpectedSize;
      var names := Names(backend);
      var i := 0;
      while i < |names|
        invariant 0 <= i <= |names|
        invariant forall k | 0 <= k < i :: Size(singleAxisMeshes[names[k]]) == ExpectedSize(Degrees(), names[k])
      {
        if Size(singleAxisMeshes[names[i]]) != ExpectedSize(Degrees(), names[i]) {
          return Some(BadMesh(names[i]));
        }
        i := i + 1;
      }
      return None;
    }

    /** dp_shard == -1 is accepted exactly when some shard degree fits, and is replaced by the only one that does. */
    method Validate() returns (e: Option<Error>)
      modifies this`dpShard
      ensures e.None? <==> exists d: Dims :: Runs(d) && (old(dpShard) == -1 || d.dpShard == old(dpShard))
      ensures old(dpShard) == -1 ==> (e.None? <==> exists s :: Fits(s))
      ensures old(dpShard) != -1 ==> (e.None? <==> Fits(old(dpShard))) && dpShard == old(dpShard)
      ensures e.None? ==> Fits(dpShard) && (forall s | Fits(s) :: s == dpShard) && WorldSize(Degrees()) == worldSize
    {
      hide Ranks, SparseRegion, Others, WorldSize, Degrees;
      var degrees := [dpReplicate, cp, tp, pp, ep];
      var i := 0;
      while i < |degrees|
        invariant 0 <= i <= |degrees| && forall k | 0 <= k < i :: degrees[k] >= 1
      {
        if degrees[i] < 1 {
          return Some(BadDegree);
        }
        i := i + 1;
      }
      assert degrees[0] >= 1 && degrees[1] >= 1 && degrees[2] >= 1 && degrees[3] >= 1 && degrees[4] >= 1;
      forall d: Dims | Runs(d) ensures Fits(d.dpShard) { FitsRuns(d.dpShard); }
      forall s | Fits(s)
        ensures s == worldSize / Others()
      {
        OnlyShard(s);
      }
      if dpShard != -1 && dpShard < 1 {
        return Some(BadShardDegree);
      }
      if dpShard < 0 {
        dpShard := worldSize / Others();
      }
      if dpShard < 1 {
        return Some(BadShardDegree);
      }
      if Ranks(dpShard) != worldSize {
        return Some(WorldMismatch);
      }
      if SparseRegion(dpShard) % ep != 0 {
        return Some(EpDoesNotDivide);
      }
      assert Fits(dpShard);
      FitsRuns(dpShard);
      WorldOfDegrees();
      return None;
    }

    function Others(): pos
      requires dpReplicate >= 1 && cp >= 1 && tp >= 1 && pp >= 1
    {
      var k := Times(Times(Times(dpReplicate, cp), tp), pp);
      assert k == dpReplicate * cp * tp * pp;
      k
    }

    lemma WorldOfDegrees()
      requires Fits(dpShard)
      ensures WorldSize(Degrees()) == worldSize
    {
      WorldIsProduct(Degrees());
    }

    lemma OnlyShard(s: int)
      requires Fits(s)
      ensures worldSize / Others() == s
    {
      var k := Others();
      assert dpReplicate * s * cp * tp * pp == s * (dpReplicate * cp * tp * pp);
      assert s * k >= 0 by { NonNegativeProduct(s, k); }
      QuotientUnique(worldSize, k, s, 0);
    }
  }

  lemma RegionIsProduct(shard: pos, cp: pos, tp: pos)
    ensures Times(shard, Times(cp, tp)) == shard * cp * tp
  {
  }

  lemma WorldIsProduct(d: Dims)
    ensures WorldSize(d) == d.dpReplicate * d.dpShard * d.cp * d.tp * d.pp
  {
    var c := d.cp * d.tp;
    assert d.dpShard * d.cp * d.tp == d.dpShard * c;
    var g := d.dpShard * c;
    assert d.dpReplicate * d.dpShard * d.cp * d.tp == d.dpReplicate * g;
    assert d.dpReplicate * g * d.pp == d.pp * d.dpReplicate * g;
  }
}

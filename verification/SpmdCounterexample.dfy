/** Without PartitionSpecs the validator compares only per-axis types, so it accepts a pair in which
    the outer of two axes sharding one dim is gathered. The result is out of order. */
module SpmdCounterexample {
  import opened Wrappers
  import opened Sums
  import opened SpmdTypes
  import opened SpmdTensors
  import opened SpmdCollectives
  import opened SpmdSoundness

  const DP := "dp"
  const CP := "cp"
  const MESH: Mesh := map[DP := 2, CP := 2]
  const AXES: seq<Axis> := [DP, CP]
  const BOTH := Layout([(DP, S(0)), (CP, S(0))], None)
  const INNER := Layout([(DP, R), (CP, S(0))], None)

  /** The vector 0, 1, 2, 3. */
  function Ramp(c: Coord): seq<int> -> real {
    idx => if |idx| == 1 then idx[0] as real else 0.0
  }

  /** Its four one-element shards, by dp and then by cp. */
  function Shards(c: Coord): Tensor {
    Tensor([1], idx => if |idx| == 1 then (2 * Get(c, DP) + Get(c, CP) + idx[0]) as real else 0.0)
  }

  function Gathered(): Locals {
    AxisRedistribute(MESH, DP, S(0), R, 1, Shards)
  }

  lemma Layouts()
    ensures PerAxis(BOTH) == map[DP := S(0), CP := S(0)] && PerAxis(INNER) == map[DP := R, CP := S(0)]
    ensures ShardList(BOTH) == [(DP, 0), (CP, 0)] && ShardList(INNER) == [(CP, 0)]
    ensures WellFormed(BOTH, 1) && WellFormed(INNER, 1)
    ensures Changed(PerAxis(BOTH), PerAxis(INNER)) == {DP}
  {
    assert DP != CP by { assert DP[0] != CP[0]; }
    var b, i := BOTH.localType, INNER.localType;
    assert b[..1] == [(DP, S(0))] && b[..1][..0] == [];
    assert i[..1] == [(DP, R)] && i[..1][..0] == [];
    assert LocalTypes(b[..1]) == map[DP := S(0)];
    assert LocalTypes(i[..1]) == map[DP := R];
    assert LocalShards(b[..1]) == [(DP, 0)];
    assert LocalShards(i[..1]) == [];
  }

  lemma Orders()
    ensures WellFormed(BOTH, 1) && Order(BOTH, 1) == [[DP, CP]]
    ensures WellFormed(INNER, 1) && Order(INNER, 1) == [[CP]]
    ensures ViewOf(BOTH, 1) == View([[DP, CP]], {}) && ViewOf(INNER, 1) == View([[CP]], {})
  {
    Layouts();
    var b, i := ShardList(BOTH), ShardList(INNER);
    assert b[..1] == [(DP, 0)] && b[..1][..0] == [] && i[..0] == [];
    assert OrderOf(b[..1][..0], 1) == [[]];
    var none: seq<Axis> := [];
    assert OrderOf(b[..1], 1) == [[DP]] by { assert none + [DP] == [DP]; }
    assert [DP] + [CP] == [DP, CP];
    assert OrderOf(i, 1) == [[CP]] by { assert none + [CP] == [CP]; }
  }

  lemma Extents()
    ensures Even(MESH, [DP, CP], 4) && Extent(MESH, [DP, CP], 4) == 1
    ensures Even(MESH, [CP], 4) && Extent(MESH, [CP], 4) == 2
    ensures forall c: Coord, i: int | ValidCoord(MESH, c) ::
      Position(MESH, [DP, CP], c, 4, i) == 2 * c[DP] + c[CP] + i && Position(MESH, [CP], c, 4, i) == 2 * c[CP] + i
  {
    assert Size(MESH, DP) == 2 && Size(MESH, CP) == 2;
    assert Splits(4, 2) && Share(4, 2) == 2 && Splits(2, 2) && Share(2, 2) == 1;
    assert [DP, CP][1..] == [CP] && [CP][1..] == [];
    assert Extent(MESH, [CP], 2) == Extent(MESH, [], 1) == 1;
    assert Even(MESH, [], 1) && Even(MESH, [CP], 2) && Even(MESH, [], 2);
    forall c: Coord, i: int | ValidCoord(MESH, c)
      ensures Position(MESH, [DP, CP], c, 4, i) == 2 * c[DP] + c[CP] + i && Position(MESH, [CP], c, 4, i) == 2 * c[CP] + i
    {
      OffsetIsProduct(c[DP], 2);
      OffsetIsProduct(c[CP], 2);
      OffsetIsProduct(c[CP], 1);
      assert Position(MESH, [CP], c, 2, i) == c[CP] + i;
    }
  }

  /** Accepted, and wrong: rank (0, 0) ends with 0, 2 where its shard is 0, 1. */
  lemma AcceptedButUnsound()
    ensures Accepts(BOTH, INNER) && WellFormed(BOTH, 1) && WellFormed(INNER, 1) && !OneAxisPerDim(BOTH, 1)
    ensures ViewFits(MESH, ViewOf(BOTH, 1), [4]) && ViewFits(MESH, ViewOf(INNER, 1), [4])
    ensures Represents(MESH, AXES, ViewOf(BOTH, 1), [4], Ramp, Shards)
    ensures IsRedistributed(MESH, BOTH, INNER, 1, Shards, Gathered())
    ensures !Represents(MESH, AXES, ViewOf(INNER, 1), [4], Ramp, Gathered())
  {
    Layouts();
    Orders();
    Extents();
    AtMostOne({DP}, DP);
    ShardsRepresent();
    GatheredWrong();
  }

  lemma ShardsRepresent()
    requires Even(MESH, [DP, CP], 4) && Extent(MESH, [DP, CP], 4) == 1
    requires forall c: Coord, i: int | ValidCoord(MESH, c) :: Position(MESH, [DP, CP], c, 4, i) == 2 * c[DP] + c[CP] + i
    ensures Represents(MESH, AXES, View([[DP, CP]], {}), [4], Ramp, Shards)
  {
    var v := View([[DP, CP]], {});
    assert LocalShape(MESH, v, [4]) == [1];
    forall c, idx | ValidCoord(MESH, c) && InShape(idx, [1])
      ensures Total(MESH, AXES, {}, c, Entry(Shards, idx)) == Ramp(c)(GlobalIndex(MESH, v, c, [4], idx))
    {
      NoPartials(MESH, AXES, c, Entry(Shards, idx));
      assert |idx| == 1 && Get(c, DP) == c[DP] && Get(c, CP) == c[CP];
      assert Shards(c).at(idx) == (2 * c[DP] + c[CP] + idx[0]) as real;
      assert GlobalIndex(MESH, v, c, [4], idx) == [2 * c[DP] + c[CP] + idx[0]];
    }
  }

  lemma GatheredWrong()
    requires Even(MESH, [CP], 4) && Extent(MESH, [CP], 4) == 2
    requires forall c: Coord, i: int | ValidCoord(MESH, c) :: Position(MESH, [CP], c, 4, i) == 2 * c[CP] + i
    ensures !Represents(MESH, AXES, View([[CP]], {}), [4], Ramp, Gathered())
  {
    var v, c, idx: seq<int> := View([[CP]], {}), map[DP := 0, CP := 0], [1];
    assert LocalShape(MESH, v, [4]) == [2] && InShape(idx, [2]);
    assert ValidCoord(MESH, c);
    NoPartials(MESH, AXES, c, Entry(Gathered(), idx));
    assert GlobalIndex(MESH, v, c, [4], idx) == [1];
    assert Norm(0, 1) == 0 && DimOf(Shards(c), 0) == 1;
    assert Component(idx, 0) == 1 && BlockOf(1, 1) == 1 && Within(1, 1) == 0;
    assert Replace(idx, 0, 0) == [0];
    assert Gathered()(c).at(idx) == Shards(c[DP := 1]).at([0]);
    assert Get(c[DP := 1], DP) == 1 && Get(c[DP := 1], CP) == 0;
    assert Gathered()(c).at(idx) == 2.0;
  }
}

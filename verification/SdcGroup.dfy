/** A checked step on all ranks of a group (torchtitan/observability/sdc_replayer.py): each replay is compared on every
    rank before any of them goes on. */
module SdcGroup {
  import opened SdcReplayer
  import opened Wrappers

  ghost predicate Separated(ranks: seq<SDCReplayer>) {
    forall i, j | 0 <= i < j < |ranks| :: ranks[i] != ranks[j]
  }

  /** A rank that enters with no pending gradients and runs something deterministic of its own. */
  ghost predicate Ready(rank: SDCReplayer, execute: Execution, entry: Machine) {
    Usable(rank.walk, entry) && NoPendingGrads(entry) && Deterministic(rank.walk, execute)
  }

  ghost predicate AllReady(ranks: seq<SDCReplayer>, executes: seq<Execution>, entries: seq<Machine>) {
    |executes| == |entries| == |ranks| && forall i | 0 <= i < |ranks| :: Ready(ranks[i], executes[i], entries[i])
  }

  /** The rank stands where one execution from its entry state leaves it, with this signature. */
  ghost predicate Ran(rank: SDCReplayer, execute: Execution, entry: Machine, loss: Addr, signature: Signature)
    reads rank
  {
    rank.IsRun(entry, execute, rank.m, loss) && rank.Signed(signature, rank.m, loss)
  }

  /** The first n ranks do. */
  ghost predicate AllRan(ranks: seq<SDCReplayer>, executes: seq<Execution>, entries: seq<Machine>, n: nat,
                         losses: seq<Addr>, signatures: seq<Signature>)
    reads ranks
  {
    n <= |ranks| && n <= |executes| && n <= |entries| && n <= |losses| && n <= |signatures| &&
    forall i | 0 <= i < n :: Ran(ranks[i], executes[i], entries[i], losses[i], signatures[i])
  }

  ghost predicate Baselines(baselines: seq<Snapshot>, entries: seq<Machine>) {
    |baselines| <= |entries| && forall i | 0 <= i < |baselines| :: Records(baselines[i], entries[i])
  }

  function Machines(ranks: seq<SDCReplayer>): (s: seq<Machine>)
    reads ranks
    ensures |s| == |ranks| && forall i | 0 <= i < |ranks| :: s[i] == ranks[i].m
  {
    seq(|ranks|, i requires 0 <= i < |ranks| reads ranks => ranks[i].m)
  }

  method RunOne(rank: SDCReplayer, execute: Execution) returns (baseline: Snapshot, loss: Addr, reference: Signature)
    requires Ready(rank, execute, rank.m)
    modifies rank
    ensures Records(baseline, old(rank.m)) && Ran(rank, execute, old(rank.m), loss, reference)
  {
    baseline := rank.Capture();
    loss, reference := rank.RunReference(execute);
  }

  method ReplayOne(rank: SDCReplayer, execute: Execution, baseline: Snapshot, reference: Signature, ghost entry: Machine,
                   ghost last: Addr)
    returns (loss: Addr, candidate: Signature)
    requires Ready(rank, execute, entry) && Records(baseline, entry) && Ran(rank, execute, entry, last, reference)
    modifies rank
    ensures Ran(rank, execute, entry, loss, reference) && candidate == reference
  {
    var mismatch;
    loss, candidate, mismatch := rank.ReplayOnce(execute, baseline, reference, entry, last);
  }

  /** Capture and reference execution on every rank. */
  method RunReferences(ranks: seq<SDCReplayer>, executes: seq<Execution>)
    returns (baselines: seq<Snapshot>, losses: seq<Addr>, references: seq<Signature>)
    requires Separated(ranks) && AllReady(ranks, executes, Machines(ranks))
    modifies ranks
    ensures |baselines| == |losses| == |references| == |ranks| && Baselines(baselines, old(Machines(ranks)))
    ensures AllRan(ranks, executes, old(Machines(ranks)), |ranks|, losses, references)
  {
    hide Ran, Ready, Records;
    ghost var entries := Machines(ranks);
    baselines, losses, references := [], [], [];
    for i := 0 to |ranks|
      invariant |baselines| == |losses| == |references| == i && Baselines(baselines, entries)
      invariant AllRan(ranks, executes, entries, i, losses, references)
      invariant forall j | i <= j < |ranks| :: ranks[j].m == entries[j]
    {
      var baseline, loss, reference := RunOne(ranks[i], executes[i]);
      baselines, losses, references := baselines + [baseline], losses + [loss], references + [reference];
    }
  }

  /** One replay on every rank. */
  method ReplayRanks(ranks: seq<SDCReplayer>, executes: seq<Execution>, baselines: seq<Snapshot>, references: seq<Signature>,
                     ghost entries: seq<Machine>, ghost last: seq<Addr>)
    returns (losses: seq<Addr>, candidates: seq<Signature>)
    requires Separated(ranks) && AllReady(ranks, executes, entries) && |baselines| == |ranks| && Baselines(baselines, entries)
    requires |references| == |last| == |ranks| && AllRan(ranks, executes, entries, |ranks|, last, references)
    modifies ranks
    ensures |losses| == |ranks| && candidates == references
    ensures AllRan(ranks, executes, entries, |ranks|, losses, references)
  {
    hide Ran, Ready, Records;
    losses, candidates := [], [];
    for i := 0 to |ranks|
      invariant |losses| == |candidates| == i && candidates == references[..i]
      invariant AllRan(ranks, executes, entries, i, losses, references)
      invariant forall j | i <= j < |ranks| :: Ran(ranks[j], executes[j], entries[j], last[j], references[j])
    {
      var loss, candidate := ReplayOne(ranks[i], executes[i], baselines[i], references[i], entries[i], last[i]);
      losses, candidates := losses + [loss], candidates + [candidate];
    }
  }

  /** A group of deterministic ranks never raises, and every rank ends where one execution leaves it. */
  method RunCheckedGroup(ranks: seq<SDCReplayer>, executes: seq<Execution>, numReplays: nat, step: nat, localStep: nat)
    returns (losses: seq<Addr>, raised: seq<Option<Mismatch>>)
    requires Separated(ranks) && AllReady(ranks, executes, Machines(ranks))
    modifies ranks
    ensures |raised| == |losses| == |ranks| && forall i | 0 <= i < |ranks| :: raised[i].None?
    ensures forall i | 0 <= i < |ranks| :: ranks[i].IsRun(old(Machines(ranks))[i], executes[i], ranks[i].m, losses[i])
  {
    ghost var entries := Machines(ranks);
    var baselines, references;
    baselines, losses, references := RunReferences(ranks, executes);
    raised := seq(|ranks|, i => None);
    for replay := 1 to numReplays + 1
      invariant |losses| == |raised| == |ranks| && forall i | 0 <= i < |ranks| :: raised[i].None?
      invariant AllRan(ranks, executes, entries, |ranks|, losses, references)
    {
      var candidates;
      losses, candidates := ReplayRanks(ranks, executes, baselines, references, entries, losses);
      raised := CheckAllRanks(step, localStep, replay, references, candidates);
      if exists i :: 0 <= i < |raised| && raised[i].Some? {
        return;
      }
    }
  }
}

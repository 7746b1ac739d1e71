/** Checkpoint retention: step directories, the highest loadable step, and the purge queue
    (torchtitan/components/checkpointer/base.py). */
module Checkpointer {
  import opened Decimals
  import opened Wrappers

  // ---------- step directories ----------

  function StepDir(step: nat): string {
    "step-" + Decimal(step)
  }

  /** _parse_step */
  function ParseStep(digit: DigitClass, dirname: string): Option<nat> {
    if "step-" <= dirname then ParseNumber(digit, dirname[5..]) else None
  }

  lemma ParseStepDir(digit: DigitClass, step: nat)
    requires ReadsDigits(digit)
    ensures ParseStep(digit, StepDir(step)) == Some(step)
  {
    assert StepDir(step)[..5] == "step-" && StepDir(step)[5..] == Decimal(step);
    ParseDecimal(digit, step);
  }

  /** Among ASCII names, the directory of a step is the only one that parses to it. */
  lemma StepDirOfParse(digit: DigitClass, dirname: string)
    requires ReadsDigits(digit) && Ascii(dirname) && ParseStep(digit, dirname).Some?
    ensures dirname == StepDir(ParseStep(digit, dirname).value)
  {
    var tail := dirname[5..];
    assert dirname == "step-" + tail;
    assert forall k | 0 <= k < |tail| :: tail[k] == dirname[5 + k];
    ParseIsDecimal(digit, tail);
  }

  /** A digit outside ASCII makes two directories of one step. */
  lemma TwoNamesOfOneStep(digit: DigitClass, d: char, v: nat)
    requires ReadsDigits(digit) && digit(d) == v && !IsDigit(d)
    ensures v < 10 && ParseStep(digit, "step-1" + [d]) == Some(10 + v) && "step-1" + [d] != StepDir(10 + v)
  {
    var name := "step-1" + [d];
    assert name[5..] == "1" + [d] && name[..5] == "step-";
    var tail := "1" + [d];
    assert tail[..1] == "1" && "1"[..0] == "";
    assert digit('1') == 1;
    assert Value(digit, "1") == Some(1);
    DecimalDigits(10 + v);
    var step := StepDir(10 + v);
    assert step[5..] == Decimal(10 + v);
    assert name[6] == d && (|step| > 6 ==> IsDigit(step[6]));
  }

  // ---------- loadable steps ----------

  /** A directory is loadable when its metadata has been written. */
  type Folder = map<string, bool>

  ghost function Loadable(digit: DigitClass, entries: Folder): set<nat> {
    set d | d in entries && entries[d] && ParseStep(digit, d).Some? :: ParseStep(digit, d).value
  }

  predicate AsciiNames(entries: Folder) {
    forall d | d in entries :: Ascii(d)
  }

  lemma LoadableDir(digit: DigitClass, entries: Folder, step: nat)
    requires ReadsDigits(digit) && AsciiNames(entries)
    ensures step in Loadable(digit, entries) <==> StepDir(step) in entries && entries[StepDir(step)]
  {
    ParseStepDir(digit, step);
    if step in Loadable(digit, entries) {
      var d :| d in entries && entries[d] && ParseStep(digit, d) == Some(step);
      StepDirOfParse(digit, d);
    }
  }

  predicate Lists(listing: seq<string>, entries: Folder) {
    && (forall d | d in listing :: d in entries)
    && (forall d | d in entries :: d in listing)
    && (forall i, j | 0 <= i < j < |listing| :: listing[i] != listing[j])
  }

  /** The highest loadable step, -1 when there is none. */
  method FindLoadStep(digit: DigitClass, entries: Folder, listing: seq<string>) returns (step: int)
    requires Lists(listing, entries)
    ensures step == -1 <==> Loadable(digit, entries) == {}
    ensures step != -1 ==> step >= 0 && step in Loadable(digit, entries)
    ensures forall s | s in Loadable(digit, entries) :: s <= step
  {
    step := -1;
    for i := 0 to |listing|
      invariant step >= -1 && (step >= 0 ==> step in Loadable(digit, entries))
      invariant forall k | 0 <= k < i :: entries[listing[k]] && ParseStep(digit, listing[k]).Some? ==>
        ParseStep(digit, listing[k]).value <= step
    {
      var d := listing[i];
      var parsed := ParseStep(digit, d);
      if parsed.None? {
        continue;
      }
      if entries[d] && parsed.value > step {
        step := parsed.value;
      }
    }
    forall s | s in Loadable(digit, entries) ensures s <= step {
      var d :| d in entries && entries[d] && ParseStep(digit, d) == Some(s);
      var k :| 0 <= k < |listing| && listing[k] == d;
    }
  }

  // ---------- what a purge enqueues ----------

  /** keep_latest_k, purge_exempt and the staging prefix of a manager, and the digits \d accepts. */
  datatype Policy = Policy(keepLatestK: nat, exempt: nat -> bool, prefix: Option<string>, digit: DigitClass)

  ghost predicate Accepted(c: Policy) {
    c.keepLatestK != 1 && (c.prefix.Some? ==> c.prefix.value != "") && ReadsDigits(c.digit)
  }

  predicate IsStaging(c: Policy, dirname: string) {
    c.prefix.Some? && c.prefix.value <= dirname && ParseStep(c.digit, dirname[|c.prefix.value|..]).Some?
  }

  predicate IsSaving(c: Policy, dirname: string, step: nat) {
    dirname == StepDir(step) || (c.prefix.Some? && dirname == c.prefix.value + StepDir(step))
  }

  function Newer(steps: set<nat>, step: nat): set<nat> {
    set t | t in steps && t > step
  }

  /** At least keep_latest_k - 1 loadable steps are newer, besides the one being saved. */
  ghost predicate Outdated(c: Policy, entries: Folder, saving: nat, step: nat) {
    |Newer(Loadable(c.digit, entries) - {saving}, step)| >= c.keepLatestK - 1
  }

  /** A loadable step with at least keep_latest_k - 1 newer ones besides the one being saved, or an abandoned directory. */
  ghost predicate Stale(c: Policy, entries: Folder, saving: nat, d: string) {
    && d in entries && !IsSaving(c, d, saving)
    && (IsStaging(c, d) ||
        match ParseStep(c.digit, d)
        case None => false
        case Some(s) => entries[d] ==> Outdated(c, entries, saving, s) && !c.exempt(s))
  }

  function SetOf(steps: seq<nat>): set<nat> {
    set t | t in steps
  }

  predicate Ascending(steps: seq<nat>) {
    forall i, j | 0 <= i < j < |steps| :: steps[i] < steps[j]
  }

  lemma {:induction false} NewerInAscending(steps: seq<nat>, i: nat)
    requires Ascending(steps) && i < |steps|
    ensures |Newer(SetOf(steps), steps[i])| == |steps| - 1 - i
    decreases |steps|
  {
    var all := SetOf(steps);
    var n := |steps| - 1;
    if i == n {
      assert Newer(all, steps[i]) == {};
    } else {
      var init := steps[..n];
      NewerInAscending(init, i);
      assert Newer(all, steps[i]) == Newer(SetOf(init), steps[i]) + {steps[n]};
    }
  }

  function Steps(pairs: seq<(nat, string)>): (steps: seq<nat>)
    ensures |steps| == |pairs| && forall i | 0 <= i < |pairs| :: steps[i] == pairs[i].0
  {
    seq(|pairs|, i requires 0 <= i < |pairs| => pairs[i].0)
  }

  predicate DistinctSteps(pairs: seq<(nat, string)>) {
    forall i, j | 0 <= i < j < |pairs| :: pairs[i].0 != pairs[j].0
  }

  /** checkpoints.sort() */
  function Sorted(pairs: seq<(nat, string)>): seq<(nat, string)> {
    if pairs == [] then [] else Insert(Sorted(pairs[..|pairs| - 1]), pairs[|pairs| - 1])
  }

  function Insert(pairs: seq<(nat, string)>, p: (nat, string)): seq<(nat, string)> {
    if pairs == [] || pairs[|pairs| - 1].0 < p.0 then pairs + [p]
    else Insert(pairs[..|pairs| - 1], p) + [pairs[|pairs| - 1]]
  }

  lemma {:induction false} InsertSorted(pairs: seq<(nat, string)>, p: (nat, string))
    requires Ascending(Steps(pairs)) && forall q | q in pairs :: q.0 != p.0
    ensures Ascending(Steps(Insert(pairs, p))) && forall q :: q in Insert(pairs, p) <==> q == p || q in pairs
  {
    if pairs != [] && pairs[|pairs| - 1].0 >= p.0 {
      var n := |pairs| - 1;
      var init := pairs[..n];
      assert Steps(init) == Steps(pairs)[..n];
      InsertSorted(init, p);
      var rest := Insert(init, p);
      forall i | 0 <= i < |rest| ensures rest[i].0 < pairs[n].0 {
        assert rest[i] in rest;
        if rest[i] != p { var k :| 0 <= k < n && init[k] == rest[i]; assert Steps(pairs)[k] < Steps(pairs)[n]; }
      }
      assert pairs == init + [pairs[n]];
    } else if pairs != [] {
      assert forall i | 0 <= i < |pairs| :: Steps(pairs)[i] <= Steps(pairs)[|pairs| - 1];
    }
  }

  lemma {:induction false} SortedIs(pairs: seq<(nat, string)>)
    requires DistinctSteps(pairs)
    ensures Ascending(Steps(Sorted(pairs))) && forall q :: q in Sorted(pairs) <==> q in pairs
  {
    if pairs != [] {
      var n := |pairs| - 1;
      SortedIs(pairs[..n]);
      InsertSorted(Sorted(pairs[..n]), pairs[n]);
      assert pairs == pairs[..n] + [pairs[n]];
    }
  }

  /** A staging directory is never a step directory. */
  lemma StagingIsNoStep(c: Policy, d: string)
    requires Accepted(c) && c.prefix.Some? && c.prefix.value + "step-" <= d
    ensures ParseStep(c.digit, d).None?
  {
    var p := |c.prefix.value|;
    assert d[p + 4] == (c.prefix.value + "step-")[p + 4] == '-';
    assert d[5..][p - 1] == '-' && c.digit('-') < 0;
    if ParseStep(c.digit, d).Some? {
      ParseAccepts(c.digit, d[5..]);
    }
  }

  lemma SavingStep(c: Policy, d: string, step: nat)
    requires Accepted(c) && Ascii(d) && ParseStep(c.digit, d).Some?
    ensures IsSaving(c, d, step) <==> ParseStep(c.digit, d) == Some(step)
    ensures !IsStaging(c, d)
  {
    ParseStepDir(c.digit, step);
    StepDirOfParse(c.digit, d);
    if c.prefix.Some? {
      var p := c.prefix.value;
      if IsStaging(c, d) { assert p + "step-" == d[..|p| + 5]; StagingIsNoStep(c, d); }
      assert (p + StepDir(step))[|p|..] == StepDir(step);
    }
  }

  /** d is a directory of step s, not the one being saved, to be deleted: a staging one, or a step directory that is not
      loadable, or is not exempt and has at least keep_latest_k - 1 newer loadable steps besides the one being saved. */
  ghost predicate StaleAs(c: Policy, entries: Folder, saving: nat, d: string, s: nat) {
    s != saving && d in entries &&
    ((c.prefix.Some? && d == c.prefix.value + StepDir(s)) ||
     (d == StepDir(s) &&
      (entries[d] ==> !c.exempt(s) && |set t | t in Loadable(c.digit, entries) && t != saving && t > s| >= c.keepLatestK - 1)))
  }

  /** What a purge enqueues, by the names of the directories. */
  lemma StaleNames(c: Policy, entries: Folder, saving: nat, d: string)
    requires Accepted(c) && AsciiNames(entries) && d in entries
    ensures Stale(c, entries, saving, d) <==> exists s: nat :: StaleAs(c, entries, saving, d, s)
  {
    if Stale(c, entries, saving, d) {
      StaleHasName(c, entries, saving, d);
    }
    if s: nat :| StaleAs(c, entries, saving, d, s) {
      ParseStepDir(c.digit, s);
      StepDirInjective(s, saving);
      if c.prefix.Some? && d == c.prefix.value + StepDir(s) {
        StagedNames(c, s, saving);
      } else {
        SavingStep(c, d, saving);
        NewerThan(c, entries, saving, s);
      }
    }
  }

  lemma NewerThan(c: Policy, entries: Folder, saving: nat, s: nat)
    ensures Newer(Loadable(c.digit, entries) - {saving}, s) == set t | t in Loadable(c.digit, entries) && t != saving && t > s
  {
  }

  lemma StepDirInjective(s: nat, t: nat)
    ensures StepDir(s) == StepDir(t) ==> s == t
  {
    assert StepDir(s)[5..] == Decimal(s) && StepDir(t)[5..] == Decimal(t);
    if StepDir(s) == StepDir(t) { DecimalInjective(s, t); }
  }

  /** A staging name is that of its own step only, and of no step directory. */
  lemma StagedNames(c: Policy, s: nat, saving: nat)
    requires Accepted(c) && c.prefix.Some?
    ensures var d := c.prefix.value + StepDir(s); IsStaging(c, d) && (IsSaving(c, d, saving) <==> s == saving)
  {
    var p := c.prefix.value;
    var d := p + StepDir(s);
    assert d[|p|..] == StepDir(s) && d[..|p|] == p;
    ParseStepDir(c.digit, s);
    StepDirInjective(s, saving);
    assert (p + StepDir(saving))[|p|..] == StepDir(saving);
    assert p + "step-" == d[..|p| + 5];
    StagingIsNoStep(c, d);
    ParseStepDir(c.digit, saving);
  }

  lemma StaleHasName(c: Policy, entries: Folder, saving: nat, d: string)
    requires Accepted(c) && AsciiNames(entries) && d in entries && Stale(c, entries, saving, d)
    ensures exists s: nat :: StaleAs(c, entries, saving, d, s)
  {
    if IsStaging(c, d) {
      var p := c.prefix.value;
      var tail := d[|p|..];
      assert d == p + tail && forall k | 0 <= k < |tail| :: tail[k] == d[|p| + k];
      StepDirOfParse(c.digit, tail);
      var s := ParseStep(c.digit, tail).value;
      assert d == p + StepDir(s);
      assert StaleAs(c, entries, saving, d, s);
    } else {
      StepDirOfParse(c.digit, d);
      var s := ParseStep(c.digit, d).value;
      assert d == StepDir(s);
      NewerThan(c, entries, saving, s);
      assert StaleAs(c, entries, saving, d, s);
    }
  }

  predicate IsCheckpoint(c: Policy, entries: Folder, saving: nat, p: (nat, string)) {
    && p.1 in entries && entries[p.1] && !IsSaving(c, p.1, saving) && !IsStaging(c, p.1)
    && ParseStep(c.digit, p.1) == Some(p.0)
  }

  predicate IsAbandoned(c: Policy, entries: Folder, saving: nat, d: string) {
    && d in entries && !IsSaving(c, d, saving)
    && (IsStaging(c, d) || (ParseStep(c.digit, d).Some? && !entries[d]))
  }

  /** The loop over the folder's entries. */
  method Scan(c: Policy, entries: Folder, listing: seq<string>, saving: nat)
    returns (checkpoints: seq<(nat, string)>, abandoned: seq<string>)
    requires Accepted(c) && AsciiNames(entries) && Lists(listing, entries)
    ensures DistinctSteps(checkpoints) && forall p :: p in checkpoints <==> IsCheckpoint(c, entries, saving, p)
    ensures forall d :: d in abandoned <==> IsAbandoned(c, entries, saving, d)
  {
    checkpoints, abandoned := [], [];
    for i := 0 to |listing|
      invariant forall p :: p in checkpoints <==> p.1 in listing[..i] && IsCheckpoint(c, entries, saving, p)
      invariant forall d :: d in abandoned <==> d in listing[..i] && IsAbandoned(c, entries, saving, d)
      invariant DistinctSteps(checkpoints)
    {
      var dirname := listing[i];
      assert listing[..i + 1] == listing[..i] + [dirname];
      if IsSaving(c, dirname, saving) {
        continue;
      }
      if IsStaging(c, dirname) {
        abandoned := abandoned + [dirname];
        continue;
      }
      var step := ParseStep(c.digit, dirname);
      if step.None? {
        continue;
      }
      if entries[dirname] {
        forall p | p in checkpoints ensures p.0 != step.value {
          StepDirOfParse(c.digit, dirname);
          StepDirOfParse(c.digit, p.1);
          assert dirname !in listing[..i];
        }
        checkpoints := checkpoints + [(step.value, dirname)];
      } else {
        abandoned := abandoned + [dirname];
      }
    }
    assert listing[..|listing|] == listing;
  }

  /** The scanned checkpoints are the loadable steps but the one being saved. */
  lemma ScannedSteps(c: Policy, entries: Folder, saving: nat, checkpoints: seq<(nat, string)>)
    requires Accepted(c) && AsciiNames(entries)
    requires forall p :: p in checkpoints <==> IsCheckpoint(c, entries, saving, p)
    ensures SetOf(Steps(checkpoints)) == Loadable(c.digit, entries) - {saving}
  {
    var steps, all := SetOf(Steps(checkpoints)), Loadable(c.digit, entries) - {saving};
    forall s | s in steps ensures s in all {
      var i :| 0 <= i < |checkpoints| && Steps(checkpoints)[i] == s;
      assert checkpoints[i] in checkpoints;
      SavingStep(c, checkpoints[i].1, saving);
    }
    forall s | s in all ensures s in steps {
      var d :| d in entries && entries[d] && ParseStep(c.digit, d) == Some(s);
      SavingStep(c, d, saving);
      assert (s, d) in checkpoints;
      var i :| 0 <= i < |checkpoints| && checkpoints[i] == (s, d);
      assert Steps(checkpoints)[i] == s;
    }
  }

  /** Among the first n of the sorted checkpoints, and not exempt. */
  predicate Purged(c: Policy, sorted: seq<(nat, string)>, n: nat, d: string) {
    exists k | 0 <= k < n && k < |sorted| :: sorted[k].1 == d && !c.exempt(sorted[k].0)
  }

  /** The first entries of the sorted list are the outdated ones. */
  lemma PurgedIsStale(c: Policy, entries: Folder, saving: nat, sorted: seq<(nat, string)>, n: nat, d: string)
    requires Accepted(c) && c.keepLatestK > 0 && AsciiNames(entries) && Ascending(Steps(sorted))
    requires forall p :: p in sorted <==> IsCheckpoint(c, entries, saving, p)
    requires n == if |sorted| > c.keepLatestK - 1 then |sorted| - (c.keepLatestK - 1) else 0
    ensures Purged(c, sorted, n, d) || IsAbandoned(c, entries, saving, d) <==> Stale(c, entries, saving, d)
  {
    ScannedSteps(c, entries, saving, sorted);
    forall k | 0 <= k < |sorted|
      ensures k < n <==> Outdated(c, entries, saving, sorted[k].0)
    {
      NewerInAscending(Steps(sorted), k);
    }
    if d in entries && ParseStep(c.digit, d).Some? {
      SavingStep(c, d, saving);
      var s := ParseStep(c.digit, d).value;
      if entries[d] && !IsSaving(c, d, saving) {
        assert (s, d) in sorted;
        var k :| 0 <= k < |sorted| && sorted[k] == (s, d);
      }
    }
    forall k | 0 <= k < n && k < |sorted| && sorted[k].1 == d ensures IsCheckpoint(c, entries, saving, sorted[k]) {
      assert sorted[k] in sorted;
    }
  }

  // ---------- saves, interruptions and deletions ----------

  datatype State = State(entries: Folder, queue: seq<string>, saving: Option<nat>)

  /** A save starts (and purges first), lands, or is cut short, with or without a restart that empties the queue; the
      purge thread takes one path and deletes it or fails. */
  datatype Event = Begin(step: nat) | Complete | Interrupt(restarted: bool) | Delete(ok: bool)

  /** Where a save writes until it lands. */
  function Target(c: Policy, step: nat): string {
    if c.prefix.Some? then c.prefix.value + StepDir(step) else StepDir(step)
  }

  /** The target exists and is not loadable yet, unless an older checkpoint of the step is still there. */
  function Started(c: Policy, entries: Folder, step: nat): Folder {
    if Target(c, step) in entries then entries else entries[Target(c, step) := false]
  }

  function Landed(c: Policy, entries: Folder, step: nat): Folder {
    (entries - {Target(c, step)})[StepDir(step) := true]
  }

  ghost predicate Enqueues(c: Policy, s: State, step: nat, queue: seq<string>) {
    && s.queue <= queue
    && forall d :: d in queue[|s.queue|..] <==> c.keepLatestK > 0 && Stale(c, s.entries, step, d)
  }

  ghost predicate Next(c: Policy, s: State, e: Event, t: State) {
    match e
    case Begin(step) =>
      s.saving.None? && Enqueues(c, s, step, t.queue) && t.entries == Started(c, s.entries, step) && t.saving == Some(step)
    case Complete =>
      s.saving.Some? && t == State(Landed(c, s.entries, s.saving.value), s.queue, None)
    case Interrupt(restarted) =>
      t == State(s.entries, if restarted then [] else s.queue, None)
    case Delete(ok) =>
      s.queue != [] && t == State(if ok then s.entries - {s.queue[0]} else s.entries, s.queue[1..], s.saving)
  }

  /** No step is saved again while its directory is queued. */
  predicate NotQueued(c: Policy, s: State, e: Event) {
    e.Begin? ==> StepDir(e.step) !in s.queue && Target(c, e.step) !in s.queue
  }

  /** A queued directory that is loadable is not exempt and has a newer loadable step. */
  ghost predicate SafeToDelete(c: Policy, entries: Folder, d: string) {
    d in entries && entries[d] && ParseStep(c.digit, d).Some? ==>
      !c.exempt(ParseStep(c.digit, d).value) && Newer(Loadable(c.digit, entries), ParseStep(c.digit, d).value) != {}
  }

  ghost predicate Safe(c: Policy, s: State) {
    && Accepted(c) && AsciiNames(s.entries) && (c.prefix.Some? ==> Ascii(c.prefix.value))
    && (s.saving.Some? ==> StepDir(s.saving.value) !in s.queue)
    && (forall d | d in s.queue :: SafeToDelete(c, s.entries, d))
  }

  predicate IsHighest(steps: set<nat>, m: nat) {
    m in steps && forall t | t in steps :: t <= m
  }

  lemma {:induction false} HighestExists(steps: set<nat>) returns (m: nat)
    requires steps != {}
    ensures IsHighest(steps, m)
    decreases |steps|
  {
    var x :| x in steps;
    if steps == {x} {
      m := x;
    } else {
      var rest := steps - {x};
      assert steps == rest + {x};
      assert rest != {};
      var y := HighestExists(rest);
      m := if x > y then x else y;
    }
  }

  lemma AsciiStepDir(step: nat)
    ensures Ascii(StepDir(step))
  {
    DecimalDigits(step);
    assert forall k | 0 <= k < 5 :: "step-"[k] < 128 as char;
  }

  lemma StartedLoadable(c: Policy, entries: Folder, step: nat)
    requires Accepted(c) && AsciiNames(entries) && (c.prefix.Some? ==> Ascii(c.prefix.value))
    ensures AsciiNames(Started(c, entries, step)) && Loadable(c.digit, Started(c, entries, step)) == Loadable(c.digit, entries)
  {
    AsciiStepDir(step);
  }

  lemma LandedLoadable(c: Policy, entries: Folder, step: nat)
    requires Accepted(c) && AsciiNames(entries) && (c.prefix.Some? ==> Ascii(c.prefix.value))
    ensures AsciiNames(Landed(c, entries, step))
    ensures Loadable(c.digit, Landed(c, entries, step)) == Loadable(c.digit, entries) + {step}
  {
    AsciiStepDir(step);
    ParseStepDir(c.digit, step);
    var next := Landed(c, entries, step);
    if c.prefix.Some? {
      var p := c.prefix.value;
      assert (p + StepDir(step))[..|p| + 5] == p + "step-";
      StagingIsNoStep(c, p + StepDir(step));
    }
    assert StepDir(step) in next && next[StepDir(step)];
    forall v | v in Loadable(c.digit, entries) ensures v in Loadable(c.digit, next) {
      var d :| d in entries && entries[d] && ParseStep(c.digit, d) == Some(v);
      if c.prefix.None? && d == Target(c, step) { assert v == step; } else { assert d in next && next[d]; }
    }
  }

  /** Deleting a queued directory keeps the highest loadable step and every exempt one. */
  lemma DeletedLoadable(c: Policy, entries: Folder, d: string)
    requires Accepted(c) && AsciiNames(entries) && SafeToDelete(c, entries, d)
    ensures AsciiNames(entries - {d})
    ensures Loadable(c.digit, entries - {d}) ==
            Loadable(c.digit, entries) - if d in entries && ParseStep(c.digit, d).Some? then {ParseStep(c.digit, d).value} else {}
    ensures forall m | IsHighest(Loadable(c.digit, entries), m) :: IsHighest(Loadable(c.digit, entries - {d}), m)
    ensures forall v | v in Loadable(c.digit, entries) && c.exempt(v) :: v in Loadable(c.digit, entries - {d})
  {
    var next := entries - {d};
    forall v ensures v in Loadable(c.digit, next) <==>
      v in Loadable(c.digit, entries) && !(d in entries && ParseStep(c.digit, d) == Some(v))
    {
      LoadableDir(c.digit, entries, v);
      LoadableDir(c.digit, next, v);
      ParseStepDir(c.digit, v);
      if d in entries && ParseStep(c.digit, d).Some? { StepDirOfParse(c.digit, d); }
    }
  }

  lemma BeginSafe(c: Policy, s: State, step: nat, t: State)
    requires Safe(c, s) && Next(c, s, Begin(step), t) && NotQueued(c, s, Begin(step))
    ensures Safe(c, t) && StepDir(step) !in t.queue
  {
    StartedLoadable(c, s.entries, step);
    var added := t.queue[|s.queue|..];
    assert t.queue == s.queue + added;
    forall d | d in t.queue ensures SafeToDelete(c, t.entries, d) {
      if d in s.queue {
        assert SafeToDelete(c, s.entries, d);
      } else {
        assert Stale(c, s.entries, step, d);
        if d in t.entries && t.entries[d] && ParseStep(c.digit, d).Some? {
          SavingStep(c, d, step);
          var v := ParseStep(c.digit, d).value;
          assert Newer(Loadable(c.digit, s.entries) - {step}, v) <= Newer(Loadable(c.digit, s.entries), v);
        }
      }
    }
  }

  lemma CompleteSafe(c: Policy, s: State, t: State)
    requires Safe(c, s) && Next(c, s, Complete, t)
    ensures Safe(c, t)
  {
    var n := s.saving.value;
    LandedLoadable(c, s.entries, n);
    forall d | d in t.queue ensures SafeToDelete(c, t.entries, d) {
      assert SafeToDelete(c, s.entries, d);
      if d in t.entries && ParseStep(c.digit, d).Some? {
        var v := ParseStep(c.digit, d).value;
        assert Newer(Loadable(c.digit, s.entries), v) <= Newer(Loadable(c.digit, t.entries), v);
      }
    }
  }

  lemma DeleteSafe(c: Policy, s: State, ok: bool, t: State)
    requires Safe(c, s) && Next(c, s, Delete(ok), t)
    ensures Safe(c, t)
  {
    var d0 := s.queue[0];
    assert d0 in s.queue && SafeToDelete(c, s.entries, d0);
    DeletedLoadable(c, s.entries, d0);
    forall d | d in t.queue ensures SafeToDelete(c, t.entries, d) {
      assert d in s.queue && SafeToDelete(c, s.entries, d);
      if ok && d in t.entries && t.entries[d] && ParseStep(c.digit, d).Some? {
        var v := ParseStep(c.digit, d).value;
        var w :| w in Newer(Loadable(c.digit, s.entries), v);
        var m := HighestExists(Loadable(c.digit, s.entries));
        assert m in Newer(Loadable(c.digit, t.entries), v);
      }
    }
  }

  /** Every step of a run keeps the queue safe. */
  lemma NextSafe(c: Policy, s: State, e: Event, t: State)
    requires Safe(c, s) && Next(c, s, e, t) && NotQueued(c, s, e)
    ensures Safe(c, t)
  {
    match e
    case Begin(step) => BeginSafe(c, s, step, t);
    case Complete => CompleteSafe(c, s, t);
    case Interrupt(_) =>
    case Delete(ok) => DeleteSafe(c, s, ok, t);
  }

  lemma SafeHighest(c: Policy, s: State, m: nat)
    requires Safe(c, s) && IsHighest(Loadable(c.digit, s.entries), m)
    ensures StepDir(m) !in s.queue
  {
    LoadableDir(c.digit, s.entries, m);
    ParseStepDir(c.digit, m);
    assert StepDir(m) in s.queue ==> SafeToDelete(c, s.entries, StepDir(m));
  }

  ghost predicate IsRun(c: Policy, states: seq<State>, events: seq<Event>) {
    && |states| == |events| + 1
    && forall i | 0 <= i < |events| :: Next(c, states[i], events[i], states[i + 1]) && NotQueued(c, states[i], events[i])
  }

  lemma {:induction false} RunSafe(c: Policy, states: seq<State>, events: seq<Event>, i: nat)
    requires IsRun(c, states, events) && i < |states| && Safe(c, states[0])
    ensures Safe(c, states[i])
  {
    if i > 0 {
      RunSafe(c, states, events, i - 1);
      NextSafe(c, states[i - 1], events[i - 1], states[i]);
    }
  }

  /** Over every run of saves, interrupted saves and deletions: the highest loadable step is never queued and no event
      makes it unloadable, exempt loadable steps stay, and a save's purge never queues its own step. */
  lemma RetentionHolds(c: Policy, states: seq<State>, events: seq<Event>, i: nat)
    requires IsRun(c, states, events) && i < |events| && Safe(c, states[0])
    ensures forall m | IsHighest(Loadable(c.digit, states[i].entries), m) ::
      StepDir(m) !in states[i].queue && m in Loadable(c.digit, states[i + 1].entries)
    ensures forall v | v in Loadable(c.digit, states[i].entries) && c.exempt(v) :: v in Loadable(c.digit, states[i + 1].entries)
    ensures events[i].Begin? ==> StepDir(events[i].step) !in states[i + 1].queue
  {
    var s, e, t := states[i], events[i], states[i + 1];
    RunSafe(c, states, events, i);
    forall m | IsHighest(Loadable(c.digit, s.entries), m) ensures StepDir(m) !in s.queue { SafeHighest(c, s, m); }
    match e
    case Begin(step) => BeginSafe(c, s, step, t); StartedLoadable(c, s.entries, step);
    case Complete => LandedLoadable(c, s.entries, s.saving.value);
    case Interrupt(_) =>
    case Delete(ok) =>
      assert s.queue[0] in s.queue && SafeToDelete(c, s.entries, s.queue[0]);
      DeletedLoadable(c, s.entries, s.queue[0]);
  }

  // ---------- what is left after the queue has drained ----------

  /** All queued deletions succeed. */
  function Drained(entries: Folder, queue: seq<string>): Folder
    decreases |queue|
  {
    if queue == [] then entries else Drained(entries - {queue[0]}, queue[1..])
  }

  lemma {:induction false} DrainedIs(entries: Folder, queue: seq<string>)
    ensures Drained(entries, queue) == map d | d in entries && d !in queue :: entries[d]
    decreases |queue|
  {
    if queue != [] {
      DrainedIs(entries - {queue[0]}, queue[1..]);
      assert forall d :: d in queue <==> d == queue[0] || d in queue[1..];
    }
  }

  /** The newest n of some steps. */
  function Newest(steps: set<nat>, n: nat): set<nat> {
    set s | s in steps && |Newer(steps, s)| < n
  }

  /** The n newest steps are newer than all the others ... */
  lemma NewestAreNewer(steps: set<nat>, n: nat, s: nat, t: nat)
    requires s in Newest(steps, n) && t in steps - Newest(steps, n)
    ensures t < s
  {
    if s < t {
      assert Newer(steps, t) <= Newer(steps, s);
      SubsetSize(Newer(steps, t), Newer(steps, s));
    }
  }

  /** ... and as many as there can be. */
  lemma {:induction false} NewestSize(steps: set<nat>, n: nat)
    ensures |Newest(steps, n)| == if |steps| < n then |steps| else n
    decreases |steps|
  {
    if steps == {} || n == 0 {
      assert Newest(steps, n) == {};
    } else {
      var m := HighestExists(steps);
      NewestStep(steps, n, m);
      NewestSize(steps - {m}, n - 1);
    }
  }

  lemma NewestStep(steps: set<nat>, n: nat, m: nat)
    requires IsHighest(steps, m) && n > 0
    ensures |steps - {m}| == |steps| - 1
    ensures |Newest(steps, n)| == |Newest(steps - {m}, n - 1)| + 1
  {
    var rest := steps - {m};
    assert Newer(steps, m) == {};
    forall s | s in rest ensures |Newer(steps, s)| == |Newer(rest, s)| + 1 {
      assert Newer(steps, s) == Newer(rest, s) + {m};
    }
    assert Newest(steps, n) == Newest(rest, n - 1) + {m};
  }

  lemma {:induction false} SubsetSize(a: set<nat>, b: set<nat>)
    requires a <= b
    ensures |a| <= |b|
    decreases |a|
  {
    if a != {} {
      var x :| x in a;
      SubsetSize(a - {x}, b - {x});
    }
  }

  /** What a purge for `saving` means to keep: the newest keep_latest_k - 1 others, and the exempt ones. */
  ghost function Kept(c: Policy, entries: Folder, saving: nat): set<nat>
    requires c.keepLatestK > 0
  {
    var others := Loadable(c.digit, entries) - {saving};
    Newest(others, c.keepLatestK - 1) + set v | v in others && c.exempt(v)
  }

  /** Queued earlier, and meant to be kept now. */
  ghost predicate Lost(c: Policy, s: State, step: nat, v: nat)
    requires c.keepLatestK > 0
  {
    v in Kept(c, s.entries, step) && StepDir(v) in s.queue
  }

  /** A step is left exactly if it is to be kept and was not queued before. */
  lemma DrainedStep(c: Policy, s: State, step: nat, t: State, v: nat)
    requires Safe(c, s) && Next(c, s, Begin(step), t) && c.keepLatestK > 0 && v != step
    requires AsciiNames(t.entries) && Loadable(c.digit, t.entries) == Loadable(c.digit, s.entries)
    requires Drained(t.entries, t.queue) == map d | d in t.entries && d !in t.queue :: t.entries[d]
    ensures v in Loadable(c.digit, Drained(t.entries, t.queue)) <==> v in Kept(c, s.entries, step) && StepDir(v) !in s.queue
  {
    var d := StepDir(v);
    LoadableDir(c.digit, Drained(t.entries, t.queue), v);
    LoadableDir(c.digit, t.entries, v);
    LoadableDir(c.digit, s.entries, v);
    ParseStepDir(c.digit, v);
    assert t.queue == s.queue + t.queue[|s.queue|..];
    assert d in t.queue <==> d in s.queue || Stale(c, s.entries, step, d);
    AsciiStepDir(v);
    SavingStep(c, d, step);
  }

  /** After a purge and a drain without failures, exactly the steps meant to be kept are loadable, unless an earlier
      purge had queued one of them: then that one is gone. */
  lemma DrainKeeps(c: Policy, s: State, step: nat, t: State)
    requires Safe(c, s) && Next(c, s, Begin(step), t) && c.keepLatestK > 0
    ensures Loadable(c.digit, Drained(t.entries, t.queue)) - {step} == Kept(c, s.entries, step) <==>
            forall v :: !Lost(c, s, step, v)
  {
    hide Safe, Next, Loadable, Drained;
    var kept, left := Kept(c, s.entries, step), Loadable(c.digit, Drained(t.entries, t.queue)) - {step};
    SafeFolder(c, s, step, t);
    StartedLoadable(c, s.entries, step);
    DrainedIs(t.entries, t.queue);
    assert step !in kept;
    forall v | v != step ensures v in left <==> v in kept && !Lost(c, s, step, v) {
      DrainedStep(c, s, step, t, v);
    }
    if left == kept {
      forall v ensures !Lost(c, s, step, v) { }
    }
  }

  lemma SafeFolder(c: Policy, s: State, step: nat, t: State)
    requires Safe(c, s) && Next(c, s, Begin(step), t)
    ensures Accepted(c) && AsciiNames(s.entries) && (c.prefix.Some? ==> Ascii(c.prefix.value))
    ensures t.entries == Started(c, s.entries, step)
  {
  }

  // ---------- without saving a loadable step again, a drain is exact ----------

  ghost function Unqueued(c: Policy, s: State): set<nat> {
    set v | v in Loadable(c.digit, s.entries) && StepDir(v) !in s.queue
  }

  /** Every queued loadable step has keep_latest_k - 1 newer ones that are not queued. */
  ghost predicate Deep(c: Policy, s: State) {
    forall v | v in Loadable(c.digit, s.entries) && StepDir(v) in s.queue :: |Newer(Unqueued(c, s), v)| >= c.keepLatestK - 1
  }

  ghost predicate Fresh(c: Policy, s: State, e: Event) {
    e.Begin? ==> e.step !in Loadable(c.digit, s.entries)
  }

  lemma NewerSubset(a: set<nat>, b: set<nat>, v: nat)
    requires a <= b
    ensures |Newer(a, v)| <= |Newer(b, v)|
  {
    SubsetSize(Newer(a, v), Newer(b, v));
  }

  /** A purge does not queue the newest keep_latest_k - 1 steps, nor had an earlier one. */
  lemma NewestUnqueued(c: Policy, s: State, step: nat, t: State)
    requires Safe(c, s) && Deep(c, s) && c.keepLatestK > 0
    requires Next(c, s, Begin(step), t) && Fresh(c, s, Begin(step))
    requires Loadable(c.digit, t.entries) == Loadable(c.digit, s.entries)
    ensures Newest(Loadable(c.digit, s.entries), c.keepLatestK - 1) <= Unqueued(c, t)
  {
    var all := Loadable(c.digit, s.entries);
    assert t.queue == s.queue + t.queue[|s.queue|..] && all - {step} == all;
    forall u | u in Newest(all, c.keepLatestK - 1) ensures StepDir(u) !in t.queue {
      if StepDir(u) in s.queue { NewerSubset(Unqueued(c, s), all, u); }
      LoadableDir(c.digit, s.entries, u);
      ParseStepDir(c.digit, u);
      AsciiStepDir(u);
      SavingStep(c, StepDir(u), step);
    }
  }

  lemma BeginDeep(c: Policy, s: State, step: nat, t: State)
    requires Safe(c, s) && Deep(c, s) && Next(c, s, Begin(step), t) && Fresh(c, s, Begin(step))
    ensures Deep(c, t)
  {
    StartedLoadable(c, s.entries, step);
    if c.keepLatestK > 0 {
      var all, n := Loadable(c.digit, s.entries), c.keepLatestK - 1;
      NewestUnqueued(c, s, step, t);
      NewestSize(all, n);
      forall v | v in all && StepDir(v) in t.queue ensures |Newer(Unqueued(c, t), v)| >= n {
        assert v !in Newest(all, n);
        forall u | u in Newest(all, n) ensures v < u { NewestAreNewer(all, n, u, v); }
        SubsetSize(Newer(all, v), all);
        SubsetSize(Newest(all, n), Newer(Unqueued(c, t), v));
      }
    }
  }

  lemma CompleteDeep(c: Policy, s: State, t: State)
    requires Safe(c, s) && Deep(c, s) && Next(c, s, Complete, t)
    ensures Deep(c, t)
  {
    LandedLoadable(c, s.entries, s.saving.value);
    forall v | v in Loadable(c.digit, t.entries) && StepDir(v) in t.queue ensures |Newer(Unqueued(c, t), v)| >= c.keepLatestK - 1 {
      NewerSubset(Unqueued(c, s), Unqueued(c, t), v);
    }
  }

  lemma DeleteDeep(c: Policy, s: State, ok: bool, t: State)
    requires Safe(c, s) && Deep(c, s) && Next(c, s, Delete(ok), t)
    ensures Deep(c, t)
  {
    var d0 := s.queue[0];
    assert d0 in s.queue && SafeToDelete(c, s.entries, d0);
    DeletedLoadable(c, s.entries, d0);
    forall u | u in Unqueued(c, s) ensures u in Unqueued(c, t) {
      LoadableDir(c.digit, s.entries, u);
      LoadableDir(c.digit, t.entries, u);
    }
    forall v | v in Loadable(c.digit, t.entries) && StepDir(v) in t.queue ensures |Newer(Unqueued(c, t), v)| >= c.keepLatestK - 1 {
      NewerSubset(Unqueued(c, s), Unqueued(c, t), v);
    }
  }

  lemma {:induction false} RunDeep(c: Policy, states: seq<State>, events: seq<Event>, i: nat)
    requires IsRun(c, states, events) && i < |states| && Safe(c, states[0]) && Deep(c, states[0])
    requires forall k | 0 <= k < |events| :: Fresh(c, states[k], events[k])
    ensures Safe(c, states[i]) && Deep(c, states[i])
  {
    RunSafe(c, states, events, i);
    if i > 0 {
      RunDeep(c, states, events, i - 1);
      var s, e, t := states[i - 1], events[i - 1], states[i];
      match e
      case Begin(step) => BeginDeep(c, s, step, t);
      case Complete => CompleteDeep(c, s, t);
      case Interrupt(_) =>
      case Delete(ok) => DeleteDeep(c, s, ok, t);
    }
  }

  /** In runs that never save a loadable step again, draining after a purge leaves exactly the newest
      keep_latest_k - 1 other steps and the exempt ones. */
  lemma DrainExact(c: Policy, states: seq<State>, events: seq<Event>, i: nat)
    requires IsRun(c, states, events) && i < |events| && Safe(c, states[0]) && Deep(c, states[0])
    requires forall k | 0 <= k < |events| :: Fresh(c, states[k], events[k])
    requires events[i].Begin? && c.keepLatestK > 0
    ensures var t, step := states[i + 1], events[i].step;
            Loadable(c.digit, Drained(t.entries, t.queue)) - {step} == Kept(c, states[i].entries, step)
  {
    var s, step := states[i], events[i].step;
    RunDeep(c, states, events, i);
    DrainKeeps(c, s, step, states[i + 1]);
    var all := Loadable(c.digit, s.entries);
    assert all - {step} == all;
    forall v ensures !Lost(c, s, step, v) {
      if Lost(c, s, step, v) {
        LoadableDir(c.digit, s.entries, v);
        ParseStepDir(c.digit, v);
        assert SafeToDelete(c, s.entries, StepDir(v));
        NewerSubset(Unqueued(c, s), all, v);
      }
    }
  }

  /** The condition is needed: an interrupted save of step 3 has queued step 1, saving step 2 again then counts step 1
      among the kept ones, and the drain removes it. */
  lemma ResaveLosesKept(c: Policy) returns (states: seq<State>, events: seq<Event>)
    requires Accepted(c) && c.keepLatestK == 2 && c.prefix.None? && forall v :: !c.exempt(v)
    ensures IsRun(c, states, events) && Safe(c, states[0]) && Deep(c, states[0]) && |events| == 3 && events[2] == Begin(2)
    ensures Loadable(c.digit, Drained(states[3].entries, states[3].queue)) - {2} != Kept(c, states[2].entries, 2)
  {
    hide StepDir, Loadable, ParseStep, Stale, SafeToDelete, ReadsDigits, Drained;
    var e0 := map[StepDir(1) := true, StepDir(2) := true];
    var e1 := e0[StepDir(3) := false];
    events := [Begin(3), Interrupt(false), Begin(2)];
    states := [State(e0, [], None), State(e1, [StepDir(1)], Some(3)), State(e1, [StepDir(1)], None),
               State(e1, [StepDir(1), StepDir(3)], Some(2))];
    ThreeSteps(c, e0, e1);
    FirstPurge(c, e0);
    SecondPurge(c, e1);
    NextSafe(c, states[0], events[0], states[1]);
    NextSafe(c, states[1], events[1], states[2]);
    DrainKeeps(c, states[2], 2, states[3]);
    assert Newer({1}, 1) == {};
    assert Loadable(c.digit, e1) - {2} == {1};
    assert Lost(c, states[2], 2, 1);
  }

  lemma ThreeSteps(c: Policy, e0: Folder, e1: Folder)
    requires ReadsDigits(c.digit) && e0 == map[StepDir(1) := true, StepDir(2) := true] && e1 == e0[StepDir(3) := false]
    ensures StepDir(1) != StepDir(2) && StepDir(1) != StepDir(3) && StepDir(2) != StepDir(3)
    ensures AsciiNames(e0) && AsciiNames(e1) && Loadable(c.digit, e0) == Loadable(c.digit, e1) == {1, 2}
  {
    AsciiStepDir(1);
    AsciiStepDir(2);
    AsciiStepDir(3);
    ParseStepDir(c.digit, 1);
    ParseStepDir(c.digit, 2);
    ParseStepDir(c.digit, 3);
    forall v ensures v in Loadable(c.digit, e0) <==> v in {1, 2} { LoadableDir(c.digit, e0, v); ParseStepDir(c.digit, v); }
    forall v ensures v in Loadable(c.digit, e1) <==> v in {1, 2} { LoadableDir(c.digit, e1, v); ParseStepDir(c.digit, v); }
  }

  lemma FirstPurge(c: Policy, e0: Folder)
    requires Accepted(c) && c.keepLatestK == 2 && c.prefix.None? && forall v :: !c.exempt(v)
    requires e0 == map[StepDir(1) := true, StepDir(2) := true] && Loadable(c.digit, e0) == {1, 2} && StepDir(1) != StepDir(2)
    requires StepDir(1) != StepDir(3) && StepDir(2) != StepDir(3)
    ensures Enqueues(c, State(e0, [], None), 3, [StepDir(1)])
  {
    ParseStepDir(c.digit, 1);
    ParseStepDir(c.digit, 2);
    assert {1, 2} - {3} == {1, 2};
    assert Newer({1, 2}, 1) == {2} && Newer({1, 2}, 2) == {};
    forall d ensures d in [StepDir(1)] <==> Stale(c, e0, 3, d) { }
  }

  lemma SecondPurge(c: Policy, e1: Folder)
    requires Accepted(c) && c.keepLatestK == 2 && c.prefix.None? && forall v :: !c.exempt(v)
    requires e1 == map[StepDir(1) := true, StepDir(2) := true, StepDir(3) := false] && Loadable(c.digit, e1) == {1, 2}
    requires StepDir(1) != StepDir(2) && StepDir(1) != StepDir(3) && StepDir(2) != StepDir(3)
    ensures Enqueues(c, State(e1, [StepDir(1)], None), 2, [StepDir(1), StepDir(3)])
  {
    ParseStepDir(c.digit, 1);
    ParseStepDir(c.digit, 3);
    assert {1, 2} - {2} == {1};
    assert Newer({1}, 1) == {};
    assert [StepDir(1), StepDir(3)][1..] == [StepDir(3)];
    forall d ensures d in [StepDir(3)] <==> Stale(c, e1, 2, d) { }
  }

  class CheckpointManager {
    const policy: Policy
    var entries: Folder
    var queue: seq<string>
    var saving: Option<nat>

    constructor (policy: Policy, entries: Folder)
      requires Accepted(policy) && AsciiNames(entries) && (policy.prefix.Some? ==> Ascii(policy.prefix.value))
      ensures Valid() && Deep(policy, Now()) && this.policy == policy && Now() == State(entries, [], None)
    {
      this.policy, this.entries, queue, saving := policy, entries, [], None;
    }

    function Now(): State
      reads this
    {
      State(entries, queue, saving)
    }

    ghost predicate Valid()
      reads this
    {
      Safe(policy, Now())
    }

    /** _purge_stale_checkpoints: enqueues exactly the stale directories. */
    method PurgeStaleCheckpoints(step: nat, listing: seq<string>) returns (ghost added: seq<string>)
      requires Valid() && Lists(listing, entries)
      modifies this`queue
      ensures queue == old(queue) + added
      ensures forall d :: d in added <==> policy.keepLatestK > 0 && Stale(policy, entries, step, d)
    {
      added := [];
      if policy.keepLatestK == 0 {
        return;
      }
      var checkpoints, abandoned := Scan(policy, entries, listing, step);
      SortedIs(checkpoints);
      checkpoints := Sorted(checkpoints);
      ScannedSteps(policy, entries, step, checkpoints);
      var numToKeep := policy.keepLatestK - 1;
      var numToPurge := if |checkpoints| > numToKeep then |checkpoints| - numToKeep else 0;
      for i := 0 to numToPurge
        invariant queue == old(queue) + added
        invariant forall d :: d in added <==> Purged(policy, checkpoints, i, d)
      {
        var (s, dir) := checkpoints[i];
        if policy.exempt(s) {
          continue;
        }
        queue := queue + [dir];
        added := added + [dir];
      }
      queue := queue + abandoned;
      added := added + abandoned;
      forall d ensures d in added <==> Stale(policy, entries, step, d) {
        PurgedIsStale(policy, entries, step, checkpoints, numToPurge, d);
      }
    }

    /** A save that has waited for the previous one: purge, then start writing. */
    method BeginSave(step: nat, listing: seq<string>)
      requires Valid() && saving.None? && Lists(listing, entries) && NotQueued(policy, Now(), Begin(step))
      modifies this
      ensures Valid() && Next(policy, old(Now()), Begin(step), Now())
    {
      ghost var before := Now();
      ghost var added := PurgeStaleCheckpoints(step, listing);
      assert queue[|before.queue|..] == added;
      entries, saving := Started(policy, entries, step), Some(step);
      NextSafe(policy, before, Begin(step), Now());
    }

    method CompleteSave()
      requires Valid() && saving.Some?
      modifies this
      ensures Valid() && Next(policy, old(Now()), Complete, Now())
    {
      ghost var before := Now();
      entries, saving := Landed(policy, entries, saving.value), None;
      NextSafe(policy, before, Complete, Now());
    }

    method InterruptSave(restarted: bool)
      requires Valid()
      modifies this
      ensures Valid() && Next(policy, old(Now()), Interrupt(restarted), Now())
    {
      saving := None;
      if restarted {
        queue := [];
      }
    }

    /** One turn of purge_thread; a failed deletion is skipped. The highest loadable step survives. */
    method PurgeOne(ok: bool)
      requires Valid() && queue != []
      modifies this
      ensures Valid() && Next(policy, old(Now()), Delete(ok), Now())
      ensures forall m | old(IsHighest(Loadable(policy.digit, entries), m)) :: IsHighest(Loadable(policy.digit, entries), m)
    {
      ghost var before := Now();
      var path := queue[0];
      assert path in queue && SafeToDelete(policy, entries, path);
      DeletedLoadable(policy, entries, path);
      queue := queue[1..];
      if ok {
        entries := entries - {path};
      }
      NextSafe(policy, before, Delete(ok), Now());
    }

    /** The thread's loop up to an empty queue, when no deletion fails. */
    method Drain()
      requires Valid()
      modifies this
      ensures Valid() && queue == [] && saving == old(saving) && entries == Drained(old(entries), old(queue))
    {
      while queue != []
        invariant Valid() && saving == old(saving)
        invariant Drained(entries, queue) == Drained(old(entries), old(queue))
        decreases |queue|
      {
        PurgeOne(true);
      }
    }
  }
}

/** Override entries as command-line tokens (parse_cli_imports and format_cli_imports in torchtitan/config/override.py).
    JSON is a pair of functions: `loads` may fail, and undoes `dumps`. */
module OverrideImports {
  import opened Wrappers

  datatype Loaded<K> = Object(kwargs: K) | NotAnObject | Malformed

  datatype Entry<K> = Bare(target: string) | WithKwargs(target: string, kwargs: K)

  datatype ParseError = KwargsNotAnObject(target: string) | BadJson

  /** token.partition("="): what is before and after the first '=', if there is one. */
  function Partition(token: string): (string, Option<string>) {
    if token == "" then ("", None)
    else if token[0] == '=' then ("", Some(token[1..]))
    else var (before, after) := Partition(token[1..]); ([token[0]] + before, after)
  }

  /** token.split(",") without the empty parts. */
  function Parts(token: string): (parts: seq<string>)
    ensures forall p | p in parts :: p != "" && ',' !in p
    ensures forall p, c | p in parts && c in p :: c in token
  {
    PartsFrom(token, "")
  }

  /** The parts of token when `part` has been read already. */
  function PartsFrom(token: string, part: string): (parts: seq<string>)
    requires ',' !in part
    ensures forall p | p in parts :: p != "" && ',' !in p
    ensures forall p, c | p in parts && c in p :: c in token || c in part
    decreases token
  {
    if token == "" then if part == "" then [] else [part]
    else if token[0] == ',' then (if part == "" then [] else [part]) + PartsFrom(token[1..], "")
    else PartsFrom(token[1..], part + [token[0]])
  }

  function BareEntries<K>(parts: seq<string>): (entries: seq<Entry<K>>)
    ensures |entries| == |parts| && forall i | 0 <= i < |parts| :: entries[i] == Bare(parts[i])
  {
    seq(|parts|, i requires 0 <= i < |parts| => Bare(parts[i]))
  }

  function ParseToken<K>(loads: string -> Loaded<K>, token: string): Result<seq<Entry<K>>, ParseError> {
    match Partition(token)
    case (target, Some(raw)) =>
      (match loads(raw)
       case Object(kwargs) => Ok([WithKwargs(target, kwargs)])
       case NotAnObject => Err(KwargsNotAnObject(target))
       case Malformed => Err(BadJson))
    case (target, None) => Ok(BareEntries(Parts(token)))
  }

  /** The whole parse: the first bad token decides the error. */
  function Parsed<K>(loads: string -> Loaded<K>, tokens: seq<string>): Result<seq<Entry<K>>, ParseError> {
    if tokens == [] then Ok([])
    else
      match Parsed(loads, tokens[..|tokens| - 1])
      case Err(e) => Err(e)
      case Ok(before) =>
        match ParseToken(loads, tokens[|tokens| - 1])
        case Err(e) => Err(e)
        case Ok(last) => Ok(before + last)
  }

  method ParseCliImports<K>(loads: string -> Loaded<K>, tokens: seq<string>) returns (r: Result<seq<Entry<K>>, ParseError>)
    ensures r == Parsed(loads, tokens)
  {
    var entries: seq<Entry<K>> := [];
    for i := 0 to |tokens|
      invariant Parsed(loads, tokens[..i]) == Ok(entries)
    {
      var (target, after) := Partition(tokens[i]);
      assert tokens[..i + 1][..i] == tokens[..i];
      if after.Some? {
        var kwargs := loads(after.value);
        if !kwargs.Object? {
          ghost var error := if kwargs.NotAnObject? then KwargsNotAnObject(target) else BadJson;
          assert ParseToken(loads, tokens[i]) == Err(error);
          ErrorStays(loads, tokens, i + 1, error);
          return Err(if kwargs.NotAnObject? then KwargsNotAnObject(target) else BadJson);
        }
        entries := entries + [WithKwargs(target, kwargs.kwargs)];
      } else {
        entries := entries + BareEntries(Parts(tokens[i]));
      }
    }
    assert tokens[..|tokens|] == tokens;
    r := Ok(entries);
  }

  lemma {:induction false} ErrorStays<K>(loads: string -> Loaded<K>, tokens: seq<string>, k: nat, error: ParseError)
    requires k <= |tokens| && Parsed(loads, tokens[..k]) == Err(error)
    ensures Parsed(loads, tokens) == Err(error)
    decreases |tokens|
  {
    if k == |tokens| {
      assert tokens[..k] == tokens;
    } else {
      var init := tokens[..|tokens| - 1];
      assert init[..k] == tokens[..k];
      ErrorStays(loads, init, k, error);
    }
  }

  function FormatEntry<K>(dumps: K -> string, e: Entry<K>): string {
    match e case Bare(target) => target case WithKwargs(target, kwargs) => target + "=" + dumps(kwargs)
  }

  function FormatCliImports<K>(dumps: K -> string, entries: seq<Entry<K>>): (tokens: seq<string>)
    ensures |tokens| == |entries| && forall i | 0 <= i < |entries| :: tokens[i] == FormatEntry(dumps, entries[i])
  {
    seq(|entries|, i requires 0 <= i < |entries| => FormatEntry(dumps, entries[i]))
  }

  // ---------- the round trip ----------

  ghost predicate Inverse<K(!new)>(loads: string -> Loaded<K>, dumps: K -> string) {
    forall k {:trigger dumps(k)} :: loads(dumps(k)) == Object(k)
  }

  /** A target without '='; without kwargs also not empty and without ','. */
  predicate Clean<K>(e: Entry<K>) {
    '=' !in e.target && (e.Bare? ==> e.target != "" && ',' !in e.target)
  }

  lemma {:induction false} PartitionOf(a: string, b: string)
    requires '=' !in a
    ensures Partition(a) == (a, None) && Partition(a + "=" + b) == (a, Some(b))
  {
    if a == "" {
      assert a + "=" + b == "=" + b;
      assert ("=" + b)[1..] == b;
    } else {
      PartitionOf(a[1..], b);
      assert a == [a[0]] + a[1..] && (a + "=" + b)[1..] == a[1..] + "=" + b;
    }
  }

  lemma {:induction false} PartitionClean(token: string)
    ensures '=' !in Partition(token).0 && (Partition(token).1.None? ==> Partition(token).0 == token)
  {
    if token != "" && token[0] != '=' {
      PartitionClean(token[1..]);
      assert token == [token[0]] + token[1..];
    }
  }

  lemma {:induction false} PartsOfPlain(token: string, part: string)
    requires ',' !in token && ',' !in part && part + token != ""
    ensures PartsFrom(token, part) == [part + token]
    decreases token
  {
    if token == "" {
      assert part + token == part;
    } else {
      PartsOfPlain(token[1..], part + [token[0]]);
      assert part + [token[0]] + token[1..] == part + token;
    }
  }

  // ---------- comma-separated targets ----------

  /** ",".join(targets) */
  function Joined(targets: seq<string>): string {
    if targets == [] then "" else if |targets| == 1 then targets[0] else targets[0] + "," + Joined(targets[1..])
  }

  function NonEmpty(targets: seq<string>): seq<string> {
    if targets == [] then [] else (if targets[0] == "" then [] else [targets[0]]) + NonEmpty(targets[1..])
  }

  lemma {:induction false} ReadPart(s: string, rest: string, part: string)
    requires ',' !in s && ',' !in part
    ensures ',' !in part + s && PartsFrom(s + rest, part) == PartsFrom(rest, part + s)
    decreases |s|
  {
    if s == "" {
      assert s + rest == rest && part + s == part;
    } else {
      assert (s + rest)[0] == s[0] && (s + rest)[1..] == s[1..] + rest;
      assert part + [s[0]] + s[1..] == part + s;
      ReadPart(s[1..], rest, part + [s[0]]);
    }
  }

  /** Splitting undoes joining, but for empty names. */
  lemma {:induction false} PartsOfJoined(targets: seq<string>)
    requires forall i | 0 <= i < |targets| :: ',' !in targets[i]
    ensures Parts(Joined(targets)) == NonEmpty(targets)
    decreases |targets|
  {
    if targets != [] {
      var t, rest := targets[0], targets[1..];
      var tail := if |targets| == 1 then "" else "," + Joined(rest);
      PartsOfJoined(rest);
      ReadPart(t, tail, "");
      assert "" + t == t && Joined(targets) == t + tail;
      if |targets| > 1 {
        assert tail[0] == ',' && tail[1..] == Joined(rest);
      } else {
        assert rest == [];
      }
    }
  }

  lemma {:induction false} NoEqualsJoined(targets: seq<string>)
    requires forall i | 0 <= i < |targets| :: '=' !in targets[i]
    ensures '=' !in Joined(targets)
    decreases |targets|
  {
    if |targets| > 1 { NoEqualsJoined(targets[1..]); }
  }

  /** A token of comma-separated plain targets stands for those targets in order, the empty ones left out. */
  lemma TargetGroup<K(!new)>(loads: string -> Loaded<K>, targets: seq<string>)
    requires forall i | 0 <= i < |targets| :: ',' !in targets[i] && '=' !in targets[i]
    ensures ParseToken(loads, Joined(targets)) == Ok(BareEntries(NonEmpty(targets)))
  {
    NoEqualsJoined(targets);
    PartitionOf(Joined(targets), "");
    PartsOfJoined(targets);
  }

  lemma CleanToken<K(!new)>(loads: string -> Loaded<K>, dumps: K -> string, e: Entry<K>)
    requires Inverse(loads, dumps) && Clean(e)
    ensures ParseToken(loads, FormatEntry(dumps, e)) == Ok([e])
  {
    match e
    case Bare(target) =>
      PartitionOf(target, "");
      PartsOfPlain(target, "");
      assert "" + target == target;
      assert BareEntries<K>([target]) == [e];
    case WithKwargs(target, kwargs) =>
      PartitionOf(target, dumps(kwargs));
  }

  lemma ParsedTokenClean<K>(loads: string -> Loaded<K>, token: string)
    requires ParseToken(loads, token).Ok?
    ensures forall e | e in ParseToken(loads, token).value :: Clean(e)
  {
    PartitionClean(token);
    if Partition(token).1.None? {
      forall e | e in ParseToken(loads, token).value ensures Clean(e) {
        assert e.target in Parts(token);
      }
    }
  }

  lemma {:induction false} ParsedClean<K>(loads: string -> Loaded<K>, tokens: seq<string>)
    requires Parsed(loads, tokens).Ok?
    ensures forall e | e in Parsed(loads, tokens).value :: Clean(e)
  {
    if tokens != [] {
      ParsedClean(loads, tokens[..|tokens| - 1]);
      ParsedTokenClean(loads, tokens[|tokens| - 1]);
    }
  }

  lemma {:induction false} CleanRoundTrip<K(!new)>(loads: string -> Loaded<K>, dumps: K -> string, entries: seq<Entry<K>>)
    requires Inverse(loads, dumps) && forall i | 0 <= i < |entries| :: Clean(entries[i])
    ensures Parsed(loads, FormatCliImports(dumps, entries)) == Ok(entries)
  {
    if entries != [] {
      var n := |entries| - 1;
      CleanRoundTrip(loads, dumps, entries[..n]);
      assert FormatCliImports(dumps, entries)[..n] == FormatCliImports(dumps, entries[..n]);
      CleanToken(loads, dumps, entries[n]);
      assert entries == entries[..n] + [entries[n]];
    }
  }

  /** Formatting is undone by parsing exactly for entries whose targets survive the token syntax. */
  lemma RoundTrip<K(!new)>(loads: string -> Loaded<K>, dumps: K -> string, entries: seq<Entry<K>>)
    requires Inverse(loads, dumps)
    ensures Parsed(loads, FormatCliImports(dumps, entries)) == Ok(entries) <==> forall i | 0 <= i < |entries| :: Clean(entries[i])
  {
    if Parsed(loads, FormatCliImports(dumps, entries)) == Ok(entries) {
      ParsedClean(loads, FormatCliImports(dumps, entries));
      assert forall i | 0 <= i < |entries| :: entries[i] in entries;
    }
    if forall i | 0 <= i < |entries| :: Clean(entries[i]) {
      CleanRoundTrip(loads, dumps, entries);
    }
  }
}

/** The loops of a consolidation pass, each against the set it computes. */
module Passes {
  import opened Bytes
  import opened Options
  import opened Order
  import opened Pickle
  import opened Frames
  import opened ScanFacts
  import opened Fold
  import opened Store
  import opened Compaction
  import opened Consolidation
  import Index

  /** Fold one scanned log into the dictionary of winners. */
  method FoldLog(env: Env, log: string, data: bytes, latest0: seq<Located>, ghost before: seq<Located>)
    returns (latest: seq<Located>)
    requires latest0 == Latest(before)
    ensures latest == Latest(before + ScanLog(env, log, data))
  {
    hide ParseFrame, Walk, Intact, Upsert, Latest;
    var scan := ReadRecords(env, data);
    ghost var found := ScanLog(env, log, data);
    latest := latest0;
    assert before + found[..0] == before;
    for i := 0 to |scan.records|
      invariant latest == Latest(before + found[..i])
    {
      var (start, end) := scan.spans[i];
      assert before + found[..i + 1] == before + found[..i] + [found[i]];
      LatestSnoc(before + found[..i], found[i]);
      latest := Upsert(latest, Located(scan.records[i], log, start, end));
    }
    assert before + found[..|found|] == before + found;
  }

  lemma {:induction false} LatestSnoc(items: seq<Located>, x: Located)
    ensures Latest(items + [x]) == Upsert(Latest(items), x)
  {
    assert (items + [x])[..|items|] == items;
  }

  /** `_collect_live_across_logs`: the live winners over every readable log, and the unreadable ones. */
  method CollectLive(env: Env, logs: map<string, LogFile>, now: int) returns (keep: seq<Located>, unread: set<string>)
    ensures keep == KeepOf(env, logs, now)
    ensures unread == Unread(logs)
  {
    hide ScanLog, Upsert, Latest, Gather, StableSort;
    var names := SortedNames(logs.Keys);
    var latest: seq<Located> := [];
    unread := {};
    assert names[..0] == [] && Latest(Gather(env, logs, [])) == [] by { NothingYet(env, logs); }
    for n := 0 to |names|
      invariant latest == Latest(Gather(env, logs, names[..n]))
      invariant unread == set k | k in names[..n] && !logs[k].readable
    {
      var name := names[n];
      assert name in names;
      Index.GatherStep(env, logs, names, n);
      assert forall k :: k in names[..n + 1] <==> k in names[..n] || k == name;
      if !logs[name].readable {
        unread := unread + {name};
        assert Gather(env, logs, names[..n]) + [] == Gather(env, logs, names[..n]);
      } else {
        latest := FoldLog(env, name, logs[name].data, latest, Gather(env, logs, names[..n]));
      }
    }
    assert names[..|names|] == names;
    keep := StableSort(LiveOnes(latest, now), TimeOf);
  }

  lemma {:induction false} NothingYet(env: Env, logs: map<string, LogFile>)
    ensures Latest(Gather(env, logs, [])) == []
  {}

  lemma {:induction false} ResolvedStep(ours: seq<Located>, pool: map<string, PoolFile>, i: nat)
    requires i < |ours|
    ensures Resolved(ours[i..], pool) ==
            (if Resolvable(ours[i], pool) then [ours[i]] else []) + Resolved(ours[i + 1..], pool)
    ensures AbsentSources(ours[..i + 1], pool) ==
            AbsentSources(ours[..i], pool) + (if Resolvable(ours[i], pool) then {} else {ours[i].log})
  {
    assert ours[i..][1..] == ours[i + 1..];
    assert forall x :: x in ours[..i + 1] <==> x in ours[..i] || x == ours[i];
  }

  /** What is resolved of the first `i` records. */
  ghost predicate Resolving(ours: seq<Located>, pool: map<string, PoolFile>, i: nat, consolidated: seq<Located>,
                            absent: set<string>)
    requires i <= |ours|
  {
    consolidated + Resolved(ours[i..], pool) == Resolved(ours, pool) && absent == AbsentSources(ours[..i], pool)
  }

  lemma {:induction false} ResolvingStarts(ours: seq<Located>, pool: map<string, PoolFile>)
    ensures Resolving(ours, pool, 0, [], {})
  {
    hide Resolved;
    assert ours[..0] == [] && ours[0..] == ours && [] + Resolved(ours, pool) == Resolved(ours, pool);
  }

  lemma {:induction false} MovedOver(done: seq<Located>, x: Located, rest: seq<Located>)
    ensures done + ([x] + rest) == (done + [x]) + rest
  {}

  lemma {:induction false} ResolvingMoves(ours: seq<Located>, pool: map<string, PoolFile>, i: nat,
                                          consolidated: seq<Located>, absent: set<string>)
    requires i < |ours| && Resolving(ours, pool, i, consolidated, absent)
    ensures if Resolvable(ours[i], pool) then Resolving(ours, pool, i + 1, consolidated + [ours[i]], absent)
            else Resolving(ours, pool, i + 1, consolidated, absent + {ours[i].log})
  {
    hide Resolved, AbsentSources;
    ResolvedStep(ours, pool, i);
    MovedOver(consolidated, ours[i], Resolved(ours[i + 1..], pool));
  }

  lemma {:induction false} ResolvingEnds(ours: seq<Located>, pool: map<string, PoolFile>, consolidated: seq<Located>,
                                         absent: set<string>)
    requires Resolving(ours, pool, |ours|, consolidated, absent)
    ensures consolidated == Resolved(ours, pool) && absent == AbsentSources(ours, pool)
  {
    hide AbsentSources;
    assert ours[..|ours|] == ours && ours[|ours|..] == [];
    NothingToResolve(pool);
  }

  /** `_resolve_spills` over records that refer to the shared pool. */
  method ResolveSpills(ours: seq<Located>, pool: map<string, PoolFile>)
    returns (consolidated: seq<Located>, absent: set<string>)
    ensures consolidated == Resolved(ours, pool) && absent == AbsentSources(ours, pool)
  {
    hide Resolved, AbsentSources, Resolving;
    consolidated, absent := [], {};
    ResolvingStarts(ours, pool);
    for i := 0 to |ours|
      invariant Resolving(ours, pool, i, consolidated, absent)
    {
      ResolvingMoves(ours, pool, i, consolidated, absent);
      if !ours[i].rec.Spilled() || ours[i].rec.spill.value in pool {
        consolidated := consolidated + [ours[i]];
      } else {
        absent := absent + {ours[i].log};
      }
    }
    ResolvingEnds(ours, pool, consolidated, absent);
  }

  lemma {:induction false} NothingToResolve(pool: map<string, PoolFile>)
    ensures AbsentSources([], pool) == {} && Resolved([], pool) == []
  {}

  /** `(size, mtime)` of a log. */
  function Identity(f: LogFile): (nat, int) { (|f.data|, f.mtime) }

  /** The prune deletes this source: fold-eligible, not to be kept, unchanged since the snapshot. */
  predicate Doomed(n: string, logs: map<string, LogFile>, snapshot: map<string, (nat, int)>, own: string,
                   keepSources: set<string>, fold: set<string>)
  {
    n in snapshot && n != own && n !in keepSources && n in fold && n in logs && Identity(logs[n]) == snapshot[n]
  }

  lemma {:induction false} NextName(names: seq<string>, i: nat)
    requires i < |names| && forall a, b :: 0 <= a < b < |names| ==> names[a] != names[b]
    ensures names[i] in names && names[i] !in names[..i]
    ensures forall n :: n in names[..i + 1] <==> n in names[..i] || n == names[i]
  {
    assert names[..i + 1] == names[..i] + [names[i]];
  }

  /** `_prune_consolidated_sources` */
  method PruneSources(logs0: map<string, LogFile>, snapshot: map<string, (nat, int)>, own: string,
                      keepSources: set<string>, fold: set<string>)
    returns (logs: map<string, LogFile>)
    ensures logs == map n | n in logs0 && !Doomed(n, logs0, snapshot, own, keepSources, fold) :: logs0[n]
  {
    logs := logs0;
    var names := SortedNames(snapshot.Keys);
    hide SortedNames;
    for i := 0 to |names|
      invariant logs.Keys <= logs0.Keys && forall n :: n in logs ==> logs[n] == logs0[n]
      invariant forall n :: n in logs0 ==>
                  (n in logs <==> n !in names[..i] || !Doomed(n, logs0, snapshot, own, keepSources, fold))
    {
      var name := names[i];
      NextName(names, i);
      if name == own || name in keepSources || name !in fold {
        continue;
      }
      if name !in logs || Identity(logs[name]) != snapshot[name] {
        continue;
      }
      logs := logs - {name};
    }
    assert names[..|names|] == names;
  }

  /** The sweep spares the file. */
  predicate Spared(pool: map<string, PoolFile>, rel: string, kept: set<string>, now: int)
    requires rel in pool
  {
    rel in kept || now - pool[rel].touched < GRACE
  }

  /** `_sweep_shared_spills` over the pool's value files. */
  method Sweep(pool0: map<string, PoolFile>, kept: set<string>, unread: set<string>, now: int)
    returns (pool: map<string, PoolFile>)
    ensures pool == Swept(pool0, kept, unread, now)
  {
    pool := pool0;
    if unread != {} {
      return;
    }
    var rels := SortedNames(pool0.Keys);
    SweptIs(pool0, kept, now);
    hide SortedNames, Spared, Swept;
    for i := 0 to |rels|
      invariant pool.Keys <= pool0.Keys && forall r :: r in pool ==> pool[r] == pool0[r]
      invariant forall r :: r in pool0 ==> (r in pool <==> r !in rels[..i] || Spared(pool0, r, kept, now))
    {
      var rel := rels[i];
      NextName(rels, i);
      SparedIs(pool0, rel, kept, now);
      if rel in kept {
        continue;
      }
      if now - pool[rel].touched < GRACE {
        continue;
      }
      pool := pool - {rel};
    }
    assert rels[..|rels|] == rels;
  }

  lemma {:induction false} SparedIs(pool: map<string, PoolFile>, rel: string, kept: set<string>, now: int)
    requires rel in pool
    ensures Spared(pool, rel, kept, now) <==> rel in kept || now - pool[rel].touched < GRACE
  {}

  lemma {:induction false} SweptIs(pool: map<string, PoolFile>, kept: set<string>, now: int)
    ensures Swept(pool, kept, {}, now) == map rel | rel in pool && Spared(pool, rel, kept, now) :: pool[rel]
  {}
}

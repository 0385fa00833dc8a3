/** Importance-based compression: stable ranking, token budget, and the accounting of what was kept. */
module Compression {
  import opened Text
  import opened Wrappers
  import opened Json
  import opened MemoryIndex
  import opened MemoryEntry
  import opened Titles
  import opened Merge
  import Truncation

  const TRUNCATE_TOKENS: nat := 500
  const FREQUENT_ACCESSES: nat := 5

  /** Arithmetic on floats, the clock and sentence splitting, left to the environment. */
  datatype Oracle = Oracle(weigh: Json -> real, scale: Json -> Json, stale: string -> bool, digest: string -> string)

  // ---- sorted(entries, key=importance, reverse=True) ----

  function InsertRanked(ranked: seq<MemoryEntry>, e: MemoryEntry, weigh: Json -> real): seq<MemoryEntry> {
    if |ranked| == 0 then [e]
    else if weigh(ranked[0].importance) >= weigh(e.importance) then [ranked[0]] + InsertRanked(ranked[1..], e, weigh)
    else [e] + ranked
  }

  function Ranked(entries: seq<MemoryEntry>, weigh: Json -> real): seq<MemoryEntry>
    decreases |entries|
  {
    if |entries| == 0 then []
    else InsertRanked(Ranked(entries[..|entries| - 1], weigh), entries[|entries| - 1], weigh)
  }

  ghost predicate Descending(entries: seq<MemoryEntry>, weigh: Json -> real) {
    forall i, j :: 0 <= i < j < |entries| ==> weigh(entries[i].importance) >= weigh(entries[j].importance)
  }

  /** The records of one importance, in order. */
  function OfWeight(entries: seq<MemoryEntry>, w: real, weigh: Json -> real): seq<MemoryEntry> {
    if |entries| == 0 then []
    else (if weigh(entries[0].importance) == w then [entries[0]] else []) + OfWeight(entries[1..], w, weigh)
  }

  lemma {:induction false} OfWeightAppend(a: seq<MemoryEntry>, b: seq<MemoryEntry>, w: real, weigh: Json -> real)
    ensures OfWeight(a + b, w, weigh) == OfWeight(a, w, weigh) + OfWeight(b, w, weigh)
  {
    if |a| == 0 {
      assert a + b == b;
    } else {
      OfWeightAppend(a[1..], b, w, weigh);
      assert (a + b)[1..] == a[1..] + b;
      ConcatAssoc(if weigh(a[0].importance) == w then [a[0]] else [], OfWeight(a[1..], w, weigh), OfWeight(b, w, weigh));
    }
  }

  lemma {:induction false} OfWeightBelow(entries: seq<MemoryEntry>, w: real, weigh: Json -> real)
    requires forall e :: e in entries ==> weigh(e.importance) < w
    ensures OfWeight(entries, w, weigh) == []
  {
    if |entries| > 0 {
      assert entries[0] in entries;
      OfWeightBelow(entries[1..], w, weigh);
    }
  }

  lemma {:induction false} InsertRankedPermutes(ranked: seq<MemoryEntry>, e: MemoryEntry, weigh: Json -> real)
    ensures multiset(InsertRanked(ranked, e, weigh)) == multiset(ranked) + multiset{e}
  {
    if |ranked| > 0 && weigh(ranked[0].importance) >= weigh(e.importance) {
      InsertRankedPermutes(ranked[1..], e, weigh);
      assert ranked == [ranked[0]] + ranked[1..];
    }
  }

  lemma {:induction false} InsertRankedDescends(ranked: seq<MemoryEntry>, e: MemoryEntry, weigh: Json -> real)
    requires Descending(ranked, weigh)
    ensures Descending(InsertRanked(ranked, e, weigh), weigh)
  {
    if |ranked| > 0 && weigh(ranked[0].importance) >= weigh(e.importance) {
      var rest := InsertRanked(ranked[1..], e, weigh);
      InsertRankedDescends(ranked[1..], e, weigh);
      InsertRankedPermutes(ranked[1..], e, weigh);
      forall x | x in rest ensures weigh(ranked[0].importance) >= weigh(x.importance) {
        assert x in multiset(rest);
        if x != e {
          assert x in multiset(ranked[1..]);
          var j :| 0 <= j < |ranked| - 1 && ranked[1..][j] == x;
        }
      }
      DescendingCons(ranked[0], rest, weigh);
    } else if |ranked| > 0 {
      forall x | x in ranked ensures weigh(e.importance) >= weigh(x.importance) {
        var j :| 0 <= j < |ranked| && ranked[j] == x;
      }
      DescendingCons(e, ranked, weigh);
    }
  }

  lemma DescendingCons(e: MemoryEntry, rest: seq<MemoryEntry>, weigh: Json -> real)
    requires Descending(rest, weigh) && forall x :: x in rest ==> weigh(e.importance) >= weigh(x.importance)
    ensures Descending([e] + rest, weigh)
  {
    forall i, j | 0 <= i < j < |rest| + 1 ensures weigh(([e] + rest)[i].importance) >= weigh(([e] + rest)[j].importance) {
      assert ([e] + rest)[j] == rest[j - 1];
      if i > 0 { assert ([e] + rest)[i] == rest[i - 1]; }
    }
  }

  lemma {:induction false} InsertRankedIsStable(ranked: seq<MemoryEntry>, e: MemoryEntry, weigh: Json -> real, w: real)
    requires Descending(ranked, weigh)
    ensures OfWeight(InsertRanked(ranked, e, weigh), w, weigh) == OfWeight(ranked + [e], w, weigh)
  {
    if |ranked| == 0 {
      assert ranked + [e] == [e];
    } else if weigh(ranked[0].importance) >= weigh(e.importance) {
      InsertRankedIsStable(ranked[1..], e, weigh, w);
      assert ([ranked[0]] + InsertRanked(ranked[1..], e, weigh))[1..] == InsertRanked(ranked[1..], e, weigh);
      assert (ranked + [e])[1..] == ranked[1..] + [e];
    } else {
      OfWeightAppend([e], ranked, w, weigh);
      OfWeightAppend(ranked, [e], w, weigh);
      if weigh(e.importance) == w {
        forall x | x in ranked ensures weigh(x.importance) < w {
          var j :| 0 <= j < |ranked| && ranked[j] == x;
        }
        OfWeightBelow(ranked, w, weigh);
      } else {
        assert OfWeight([e], w, weigh) == [];
      }
    }
  }

  /** The ranking is the stable one: descending, a permutation, and equal importances keep their order. */
  lemma {:induction false} RankedIsStableSort(entries: seq<MemoryEntry>, weigh: Json -> real, w: real)
    ensures Descending(Ranked(entries, weigh), weigh)
    ensures multiset(Ranked(entries, weigh)) == multiset(entries)
    ensures OfWeight(Ranked(entries, weigh), w, weigh) == OfWeight(entries, w, weigh)
    decreases |entries|
  {
    hide InsertRanked, OfWeight, Descending;
    if |entries| == 0 {
      NoneRanked(weigh);
    } else {
      var rest, last := entries[..|entries| - 1], entries[|entries| - 1];
      RankedIsStableSort(rest, weigh, w);
      var ranked := Ranked(rest, weigh);
      InsertRankedPermutes(ranked, last, weigh);
      InsertRankedDescends(ranked, last, weigh);
      InsertRankedIsStable(ranked, last, weigh, w);
      assert entries == rest + [last];
      OfWeightAppend(rest, [last], w, weigh);
      OfWeightAppend(ranked, [last], w, weigh);
    }
  }

  lemma NoneRanked(weigh: Json -> real)
    ensures Descending([], weigh)
  {
  }

  // ---- The budget pass ----

  datatype Fate = Keep | Truncate | Summarize | Prune

  predicate Expired(e: MemoryEntry, env: Oracle) {
    e.accessCount < FREQUENT_ACCESSES && env.stale(e.lastAccessed)
  }

  function FateOf(e: MemoryEntry, spent: int, budget: int, env: Oracle): Fate {
    var w := env.weigh(e.importance);
    if Expired(e, env) && w < 0.5 then Prune
    else if spent + e.tokenCount <= budget then Keep
    else if w >= 0.7 then Truncate
    else if w >= 0.3 then Summarize
    else Prune
  }

  /** `_truncate`. */
  function TruncateEntry(e: MemoryEntry): MemoryEntry {
    if e.tokenCount <= TRUNCATE_TOKENS then e
    else
      var body := Truncation.Truncated(e.content, TRUNCATE_TOKENS);
      e.(title := MarkedTitle(e.title, MARKERS[0]), content := body,
         metadata := SetMember(e.metadata, "truncated", Bool(true)),
         tokenCount := Truncation.EstimateTokens(body), compressed := true, parentId := Some(e.id))
  }

  /** `_summarize`; the chosen sentences come from the environment. */
  function SummarizeEntry(e: MemoryEntry, env: Oracle): MemoryEntry {
    var digest := env.digest(e.content);
    var body := if digest != "" then "[summary] " + digest else "[summary] content compressed";
    e.(title := MarkedTitle(e.title, MARKERS[1]), content := body,
       metadata := SetMember(SetMember(e.metadata, "summarized", Bool(true)), "original_length", Int(|e.content|)),
       importance := env.scale(e.importance),
       tokenCount := Truncation.EstimateTokens(body), compressed := true, parentId := Some(e.id))
  }

  datatype Sifted = Sifted(kept: seq<MemoryEntry>, keptCount: nat, summarized: nat, pruned: nat, tokensSaved: int, spent: int)

  function SiftOne(s: Sifted, e: MemoryEntry, budget: int, env: Oracle): Sifted {
    match FateOf(e, s.spent, budget, env)
    case Keep =>
      s.(kept := s.kept + [e], keptCount := s.keptCount + 1, spent := s.spent + e.tokenCount)
    case Truncate =>
      var t := TruncateEntry(e);
      s.(kept := s.kept + [t], keptCount := s.keptCount + 1, tokensSaved := s.tokensSaved + e.tokenCount - t.tokenCount, spent := s.spent + t.tokenCount)
    case Summarize =>
      var t := SummarizeEntry(e, env);
      s.(kept := s.kept + [t], summarized := s.summarized + 1, tokensSaved := s.tokensSaved + e.tokenCount - t.tokenCount, spent := s.spent + t.tokenCount)
    case Prune =>
      s.(pruned := s.pruned + 1, tokensSaved := s.tokensSaved + e.tokenCount)
  }

  function Sift(entries: seq<MemoryEntry>, budget: int, env: Oracle): Sifted
    decreases |entries|
  {
    if |entries| == 0 then Sifted([], 0, 0, 0, 0, 0)
    else SiftOne(Sift(entries[..|entries| - 1], budget, env), entries[|entries| - 1], budget, env)
  }

  datatype Stats = Stats(total: nat, kept: nat, summarized: nat, pruned: nat, merged: int, tokensSaved: int, remaining: nat)

  function Survivors(entries: seq<MemoryEntry>, budget: int, env: Oracle): seq<MemoryEntry> {
    Merged(Sift(Ranked(entries, env.weigh), budget, env).kept, env.weigh)
  }

  function StatsOf(entries: seq<MemoryEntry>, budget: int, env: Oracle): Stats {
    var s := Sift(Ranked(entries, env.weigh), budget, env);
    var merged := Merged(s.kept, env.weigh);
    Stats(|entries|, s.keptCount, s.summarized, s.pruned, |s.kept| - |merged|, s.tokensSaved, |merged|)
  }

  /** `SemanticCompressor.compress`. */
  method Compress(entries: seq<MemoryEntry>, budget: int, env: Oracle) returns (merged: seq<MemoryEntry>, stats: Stats)
    ensures merged == Survivors(entries, budget, env) && stats == StatsOf(entries, budget, env)
  {
    hide TruncateEntry, SummarizeEntry, Merged, Ranked;
    var ranked := Ranked(entries, env.weigh);
    var kept: seq<MemoryEntry> := [];
    var keptCount, summarized, pruned := 0, 0, 0;
    var tokensSaved, currentTokens := 0, 0;
    for k := 0 to |ranked|
      invariant Sift(ranked[..k], budget, env) == Sifted(kept, keptCount, summarized, pruned, tokensSaved, currentTokens)
    {
      var entry := ranked[k];
      assert ranked[..k + 1][..k] == ranked[..k];
      if Expired(entry, env) && env.weigh(entry.importance) < 0.5 {
        pruned := pruned + 1;
        tokensSaved := tokensSaved + entry.tokenCount;
      } else if currentTokens + entry.tokenCount > budget {
        if env.weigh(entry.importance) >= 0.7 {
          var truncated := TruncateEntry(entry);
          kept := kept + [truncated];
          keptCount := keptCount + 1;
          tokensSaved := tokensSaved + entry.tokenCount - truncated.tokenCount;
          currentTokens := currentTokens + truncated.tokenCount;
        } else if env.weigh(entry.importance) >= 0.3 {
          var summary := SummarizeEntry(entry, env);
          kept := kept + [summary];
          summarized := summarized + 1;
          tokensSaved := tokensSaved + entry.tokenCount - summary.tokenCount;
          currentTokens := currentTokens + summary.tokenCount;
        } else {
          pruned := pruned + 1;
          tokensSaved := tokensSaved + entry.tokenCount;
        }
      } else {
        kept := kept + [entry];
        keptCount := keptCount + 1;
        currentTokens := currentTokens + entry.tokenCount;
      }
    }
    assert ranked[..|ranked|] == ranked;
    merged := MergeDuplicates(kept, env.weigh);
    stats := Stats(|entries|, keptCount, summarized, pruned, |kept| - |merged|, tokensSaved, |merged|);
  }

  // ---- Accounting ----

  function Tokens(entries: seq<MemoryEntry>): nat
    decreases |entries|
  {
    if |entries| == 0 then 0 else Tokens(entries[..|entries| - 1]) + entries[|entries| - 1].tokenCount
  }

  lemma TokensAppend(entries: seq<MemoryEntry>, e: MemoryEntry)
    ensures Tokens(entries + [e]) == Tokens(entries) + e.tokenCount
  {
    assert (entries + [e])[..|entries|] == entries;
  }

  predicate Balanced(s: Sifted, records: nat, tokens: nat) {
    && s.keptCount + s.summarized + s.pruned == records
    && s.keptCount + s.summarized == |s.kept|
    && s.spent == Tokens(s.kept)
    && s.tokensSaved + s.spent == tokens
  }

  lemma BalancedStep(s: Sifted, e: MemoryEntry, records: nat, tokens: nat, budget: int, env: Oracle)
    requires Balanced(s, records, tokens)
    ensures Balanced(SiftOne(s, e, budget, env), records + 1, tokens + e.tokenCount)
  {
    hide TruncateEntry, SummarizeEntry, FateOf, Tokens;
    match FateOf(e, s.spent, budget, env)
    case Keep => TokensAppend(s.kept, e);
    case Truncate => TokensAppend(s.kept, TruncateEntry(e));
    case Summarize => TokensAppend(s.kept, SummarizeEntry(e, env));
    case Prune =>
  }

  lemma SiftUnfolds(entries: seq<MemoryEntry>, budget: int, env: Oracle)
    requires |entries| > 0
    ensures var n := |entries| - 1;
            && Sift(entries, budget, env) == SiftOne(Sift(entries[..n], budget, env), entries[n], budget, env)
            && Tokens(entries) == Tokens(entries[..n]) + entries[n].tokenCount
  {
    hide SiftOne;
  }

  lemma NothingSifted(budget: int, env: Oracle)
    ensures Balanced(Sift([], budget, env), 0, Tokens([]))
  {
  }

  lemma {:induction false} SiftBalances(entries: seq<MemoryEntry>, budget: int, env: Oracle)
    ensures Balanced(Sift(entries, budget, env), |entries|, Tokens(entries))
    decreases |entries|
  {
    hide Sift, SiftOne, Balanced, Tokens;
    if |entries| > 0 {
      var n := |entries| - 1;
      SiftUnfolds(entries, budget, env);
      SiftBalances(entries[..n], budget, env);
      BalancedStep(Sift(entries[..n], budget, env), entries[n], n, Tokens(entries[..n]), budget, env);
    } else {
      assert entries == [];
      NothingSifted(budget, env);
    }
  }

  /** Every record is kept, summarised or pruned, and the tokens saved are exactly those no longer held before merging. */
  lemma CompressionBalances(entries: seq<MemoryEntry>, budget: int, env: Oracle)
    ensures var stats := StatsOf(entries, budget, env);
            && stats.kept + stats.summarized + stats.pruned == stats.total == |entries|
            && stats.remaining + stats.merged + stats.pruned == stats.total
            && 0 <= stats.merged
            && stats.tokensSaved + Tokens(Sift(Ranked(entries, env.weigh), budget, env).kept) == Tokens(entries)
  {
    var ranked := Ranked(entries, env.weigh);
    RankedIsStableSort(entries, env.weigh, 0.0);
    SiftBalances(ranked, budget, env);
    MergeNeverGrows(Sift(ranked, budget, env).kept, env.weigh);
    assert |ranked| == |multiset(ranked)| == |multiset(entries)| == |entries|;
    TokensOfPermutation(ranked, entries);
  }

  lemma {:induction false} TokensOfPermutation(a: seq<MemoryEntry>, b: seq<MemoryEntry>)
    requires multiset(a) == multiset(b)
    ensures Tokens(a) == Tokens(b)
    decreases |a|
  {
    if |a| == 0 {
      assert |b| == |multiset(b)| == |multiset(a)| == 0;
    } else {
      var n := |a| - 1;
      assert a == a[..n] + [a[n]];
      assert a[n] in multiset(b);
      var i :| 0 <= i < |b| && b[i] == a[n];
      RemoveAt(b, i);
      assert multiset(a[..n]) == multiset(b) - multiset{a[n]};
      TokensOfPermutation(a[..n], b[..i] + b[i + 1..]);
    }
  }

  lemma RemoveAt(b: seq<MemoryEntry>, i: nat)
    requires i < |b|
    ensures var rest := b[..i] + b[i + 1..];
            multiset(rest) == multiset(b) - multiset{b[i]} && Tokens(b) == Tokens(rest) + b[i].tokenCount
  {
    assert b == b[..i] + [b[i]] + b[i + 1..];
    TokensAppend(b[..i], b[i]);
    TokensSplit(b[..i] + [b[i]], b[i + 1..]);
    TokensSplit(b[..i], b[i + 1..]);
  }

  lemma {:induction false} TokensSplit(a: seq<MemoryEntry>, b: seq<MemoryEntry>)
    ensures Tokens(a + b) == Tokens(a) + Tokens(b)
    decreases |b|
  {
    if |b| == 0 {
      assert a + b == a;
    } else {
      TokensSplit(a, b[..|b| - 1]);
      assert (a + b)[..|a + b| - 1] == a + b[..|b| - 1];
    }
  }

  /** The tokens of the records kept whole because they fit. */
  function WholeTokens(entries: seq<MemoryEntry>, budget: int, env: Oracle): nat
    decreases |entries|
  {
    if |entries| == 0 then 0
    else
      var rest, e := entries[..|entries| - 1], entries[|entries| - 1];
      WholeTokens(rest, budget, env) +
      if FateOf(e, Sift(rest, budget, env).spent, budget, env).Keep? then e.tokenCount else 0
  }

  /** Records kept whole never exceed the budget between them. */
  lemma {:induction false} WholeWithinBudget(entries: seq<MemoryEntry>, budget: int, env: Oracle)
    ensures WholeTokens(entries, budget, env) <= Sift(entries, budget, env).spent
    ensures WholeTokens(entries, budget, env) == 0 || WholeTokens(entries, budget, env) <= budget
    decreases |entries|
  {
    hide TruncateEntry, SummarizeEntry;
    if |entries| > 0 { WholeWithinBudget(entries[..|entries| - 1], budget, env); }
  }

  // ---- What becomes of one record ----

  /** No longer read: fewer than five reads, the last of them long ago. */
  predicate Forgotten(e: MemoryEntry, env: Oracle) {
    e.accessCount < 5 && env.stale(e.lastAccessed)
  }

  /** Dropped: forgotten and of less than half importance, or no room left for it and of less than three tenths. */
  predicate MustGo(e: MemoryEntry, room: int, env: Oracle) {
    || (Forgotten(e, env) && env.weigh(e.importance) < 0.5)
    || (e.tokenCount > room && env.weigh(e.importance) < 0.3)
  }

  /** Kept as it is: it fits what is left, or it is important and short. */
  predicate StaysWhole(e: MemoryEntry, room: int, env: Oracle) {
    !MustGo(e, room, env) && (e.tokenCount <= room || (env.weigh(e.importance) >= 0.7 && e.tokenCount <= 500))
  }

  lemma OneRecordsFate(s: Sifted, e: MemoryEntry, budget: int, env: Oracle)
    ensures var room, now := budget - s.spent, SiftOne(s, e, budget, env);
            && (now.kept == s.kept <==> MustGo(e, room, env))
            && (MustGo(e, room, env) <==> now.pruned == s.pruned + 1)
            && (StaysWhole(e, room, env) ==> now.kept == s.kept + [e])
            && (!MustGo(e, room, env) && !StaysWhole(e, room, env) ==>
                  && |now.kept| == |s.kept| + 1 && now.kept[..|s.kept|] == s.kept
                  && var t := now.kept[|s.kept|];
                     if env.weigh(e.importance) >= 0.7 then IsTruncated(e, t) && now.keptCount == s.keptCount + 1
                     else IsSummary(e, t, env) && now.summarized == s.summarized + 1)
  {
    hide Truncation.Truncated, Truncation.EstimateTokens, MarkedTitle, SetMember;
    TruncationKeepsOrigin(e);
    SummaryKeepsOrigin(e, env);
    hide TruncateEntry, SummarizeEntry, IsTruncated, IsSummary;
  }

  /** A longer record cut down to 500 tokens, marked in its title and metadata, and still the same in everything else. */
  predicate IsTruncated(e: MemoryEntry, t: MemoryEntry) {
    && t.content == Truncation.Truncated(e.content, 500) && t.tokenCount == Truncation.EstimateTokens(t.content)
    && t.importance == e.importance && t.compressed && t.parentId == Some(e.id)
    && Lookup(t.metadata, "truncated") == Some(Bool(true))
  }

  ghost predicate KeepsOtherKeys(e: MemoryEntry, t: MemoryEntry, keys: set<string>) {
    forall key :: key !in keys ==> Lookup(t.metadata, key) == Lookup(e.metadata, key)
  }

  /** A digest in place of the body, with the original length on record and the importance scaled. */
  predicate IsSummary(e: MemoryEntry, t: MemoryEntry, env: Oracle) {
    && t.content == "[summary] " + (if env.digest(e.content) == "" then "content compressed" else env.digest(e.content))
    && t.tokenCount == Truncation.EstimateTokens(t.content)
    && t.importance == env.scale(e.importance) && t.compressed && t.parentId == Some(e.id)
    && Lookup(t.metadata, "summarized") == Some(Bool(true)) && Lookup(t.metadata, "original_length") == Some(Int(|e.content|))
  }

  lemma TruncationKeepsOrigin(e: MemoryEntry)
    ensures if e.tokenCount <= 500 then TruncateEntry(e) == e else IsTruncated(e, TruncateEntry(e)) && KeepsOtherKeys(e, TruncateEntry(e), {"truncated"})
  {
    hide Truncation.Truncated, Truncation.EstimateTokens, MarkedTitle, SetMember;
  }

  lemma SummaryKeepsOrigin(e: MemoryEntry, env: Oracle)
    ensures IsSummary(e, SummarizeEntry(e, env), env) && KeepsOtherKeys(e, SummarizeEntry(e, env), {"summarized", "original_length"})
  {
    hide Truncation.Truncated, Truncation.EstimateTokens, MarkedTitle, SetMember;
    assert "[summary] " + "content compressed" == "[summary] content compressed";
  }

  /** What is left of the budget when the k-th record of the ranking is reached. */
  function RoomAt(ranked: seq<MemoryEntry>, k: nat, budget: int, env: Oracle): int
    requires k <= |ranked|
  {
    budget - Tokens(Sift(ranked[..k], budget, env).kept)
  }

  lemma {:induction false} SiftExtends(ranked: seq<MemoryEntry>, k: nat, budget: int, env: Oracle)
    requires k <= |ranked|
    ensures Sift(ranked[..k], budget, env).kept <= Sift(ranked, budget, env).kept
    decreases |ranked|
  {
    hide SiftOne;
    if k < |ranked| {
      var n := |ranked| - 1;
      assert ranked[..n][..k] == ranked[..k];
      SiftExtends(ranked[..n], k, budget, env);
      SiftOneExtends(Sift(ranked[..n], budget, env), ranked[n], budget, env);
    } else {
      assert ranked[..k] == ranked;
    }
  }

  lemma SiftOneExtends(s: Sifted, e: MemoryEntry, budget: int, env: Oracle)
    ensures s.kept <= SiftOne(s, e, budget, env).kept
  {
    hide TruncateEntry, SummarizeEntry, FateOf;
  }

  lemma SiftAt(ranked: seq<MemoryEntry>, k: nat, budget: int, env: Oracle)
    requires k < |ranked|
    ensures Sift(ranked[..k + 1], budget, env) == SiftOne(Sift(ranked[..k], budget, env), ranked[k], budget, env)
    ensures Sift(ranked[..k], budget, env).spent == budget - RoomAt(ranked, k, budget, env)
  {
    hide SiftOne;
    assert ranked[..k + 1][..k] == ranked[..k];
    SiftBalances(ranked[..k], budget, env);
  }

  /** Whatever reached the kept list by the k-th record comes from one of the first k; with distinct files nothing later takes its file. */
  lemma {:induction false} LaterFilesDiffer(ranked: seq<MemoryEntry>, k: nat, budget: int, env: Oracle, t: MemoryEntry)
    requires DistinctFiles(ranked) && k < |ranked| && t in Sift(ranked, budget, env).kept && t.File() == ranked[k].File()
    ensures t in Sift(ranked[..k + 1], budget, env).kept && t !in Sift(ranked[..k], budget, env).kept
    decreases |ranked|
  {
    hide SameRecord, SameIdentity, Filename, DistinctFiles, SiftOne;
    var n := |ranked| - 1;
    PrefixDistinct(ranked, k);
    SiftKeepsIdentity(ranked[..k], budget, env);
    if t in Sift(ranked[..k], budget, env).kept {
      var e :| e in ranked[..k] && SameRecord(e, t);
      SameRecordIdentity(e, t);
      var i :| 0 <= i < k && ranked[i] == e;
      DistinctAt(ranked, i, k);
    }
    if k < n {
      assert ranked[..n][..k] == ranked[..k] && ranked[..n][..k + 1] == ranked[..k + 1];
      PrefixDistinct(ranked, n);
      var before, e := Sift(ranked[..n], budget, env), ranked[n];
      if t !in before.kept {
        TransformsKeepRecord(e, env);
        SameRecordItself(e);
        LastIsOwn(before, e, budget, env, t);
        SameRecordIdentity(e, t);
        DistinctAt(ranked, k, n);
      }
      LaterFilesDiffer(ranked[..n], k, budget, env, t);
    } else {
      assert ranked[..k + 1] == ranked;
    }
  }

  lemma LastIsOwn(s: Sifted, e: MemoryEntry, budget: int, env: Oracle, t: MemoryEntry)
    requires t in SiftOne(s, e, budget, env).kept && t !in s.kept
    requires SameRecord(e, e) && SameRecord(e, TruncateEntry(e)) && SameRecord(e, SummarizeEntry(e, env))
    ensures SameRecord(e, t)
  {
    hide TruncateEntry, SummarizeEntry, FateOf, SameRecord;
  }

  lemma DistinctAt(entries: seq<MemoryEntry>, i: nat, j: nat)
    requires DistinctFiles(entries) && i < j < |entries|
    ensures entries[i].File() != entries[j].File()
  {
  }

  lemma PrefixDistinct(entries: seq<MemoryEntry>, k: nat)
    requires DistinctFiles(entries) && k <= |entries|
    ensures DistinctFiles(entries[..k])
  {
    hide Filename;
  }

  /**
    The budget pass decides each record of the ranking by its importance, its reads and the room left: it is dropped, and
    nothing passes under its file, exactly when it must go; it passes unchanged when it stays whole; otherwise an important
    record passes truncated and any other as a summary.
  */
  lemma FateAtRank(entries: seq<MemoryEntry>, k: nat, budget: int, env: Oracle)
    requires DistinctFiles(entries) && k < |Ranked(entries, env.weigh)|
    ensures var ranked := Ranked(entries, env.weigh);
            var e, room, kept := ranked[k], RoomAt(ranked, k, budget, env), Sift(ranked, budget, env).kept;
            && ((forall t :: t in kept ==> t.File() != e.File()) <==> MustGo(e, room, env))
            && (StaysWhole(e, room, env) ==> e in kept)
            && (!MustGo(e, room, env) && !StaysWhole(e, room, env) ==>
                  exists t :: t in kept && SameRecord(e, t) && if env.weigh(e.importance) >= 0.7 then IsTruncated(e, t) else IsSummary(e, t, env))
  {
    hide SiftOne, Filename, SameRecord, SameIdentity, MustGo, StaysWhole, IsTruncated, IsSummary, DistinctFiles, Ranked;
    var ranked := Ranked(entries, env.weigh);
    RankedIsStableSort(entries, env.weigh, 0.0);
    DistinctPermutation(entries, ranked);
    var e, room, kept := ranked[k], RoomAt(ranked, k, budget, env), Sift(ranked, budget, env).kept;
    var before, now := Sift(ranked[..k], budget, env), Sift(ranked[..k + 1], budget, env);
    SiftAt(ranked, k, budget, env);
    OneRecordsFate(before, e, budget, env);
    SiftExtends(ranked, k + 1, budget, env);
    forall t | t in kept && t.File() == e.File() ensures !MustGo(e, room, env) { LaterFilesDiffer(ranked, k, budget, env, t); }
    if !MustGo(e, room, env) {
      SiftOneExtends(before, e, budget, env);
      var t := now.kept[|before.kept|];
      assert t in now.kept && t in kept;
      SiftedLast(before, e, budget, env);
      assert SameRecord(e, t);
      SameRecordIdentity(e, t);
    }
  }

  lemma SiftedLast(s: Sifted, e: MemoryEntry, budget: int, env: Oracle)
    ensures var now := SiftOne(s, e, budget, env);
            now.kept != s.kept ==> |now.kept| == |s.kept| + 1 && SameRecord(e, now.kept[|s.kept|])
  {
    TransformsKeepRecord(e, env);
    SameRecordItself(e);
    hide TruncateEntry, SummarizeEntry, FateOf, SameRecord;
  }

  /** A record of importance 0.7 or more always survives: its own or its cut body is carried by a survivor. */
  lemma ImportantRecordsSurvive(entries: seq<MemoryEntry>, e: MemoryEntry, budget: int, env: Oracle)
    requires DistinctFiles(entries) && e in entries && env.weigh(e.importance) >= 0.7
    ensures exists t, o :: SameRecord(e, t) && (t == e || IsTruncated(e, t)) && o in Survivors(entries, budget, env) && Covers(o, t)
  {
    hide Filename, SameRecord, SameIdentity, IsTruncated, IsSummary, DistinctFiles, Ranked, Sift, Covers, Merged, Forgotten, RoomAt;
    var ranked := Ranked(entries, env.weigh);
    RankedIsStableSort(entries, env.weigh, 0.0);
    assert e in multiset(entries) && e in multiset(ranked) && e in ranked;
    var k :| 0 <= k < |ranked| && ranked[k] == e;
    FateAtRank(entries, k, budget, env);
    SurvivorsCoverKept(entries, budget, env);
    SameRecordItself(e);
    var kept := Sift(ranked, budget, env).kept;
    var t :| t in kept && SameRecord(e, t) && (t == e || IsTruncated(e, t));
    assert exists o :: o in Survivors(entries, budget, env) && Covers(o, t);
  }

  // ---- Identity and content ----

  /** What compression of a record leaves alone. */
  predicate SameRecord(e: MemoryEntry, t: MemoryEntry) {
    && SameIdentity(e, t) && BaseTitle(t.title) == BaseTitle(e.title)
    && t.tags == e.tags && t.accessCount == e.accessCount && t.createdAt == e.createdAt && t.lastAccessed == e.lastAccessed
    && (t == e || (t.compressed && t.parentId == Some(e.id)))
  }

  lemma MarkKeepsBase(title: string, k: nat)
    requires k < |MARKERS|
    ensures BaseTitle(MarkedTitle(title, MARKERS[k])) == BaseTitle(title)
  {
    hide MARKERS;
    BaseTitleOfMarked(title, MARKERS[k]);
  }

  lemma TransformsKeepRecord(e: MemoryEntry, env: Oracle)
    ensures SameRecord(e, TruncateEntry(e)) && SameRecord(e, SummarizeEntry(e, env))
  {
    MarkersNotEmpty();
    hide BaseTitle, MarkedTitle, SetMember, Filename, MARKERS, Truncation.Truncated, Truncation.EstimateTokens;
    MarkKeepsBase(e.title, 0);
    MarkKeepsBase(e.title, 1);
  }

  lemma {:induction false} SiftKeepsIdentity(entries: seq<MemoryEntry>, budget: int, env: Oracle)
    requires DistinctFiles(entries)
    ensures var kept := Sift(entries, budget, env).kept;
            && DistinctFiles(kept)
            && forall t :: t in kept ==> exists e :: e in entries && SameRecord(e, t)
    decreases |entries|
  {
    hide SameRecord, SameIdentity, Filename, TruncateEntry, SummarizeEntry, FateOf, DistinctFiles;
    if |entries| == 0 {
      NoFiles();
    } else {
      var n := |entries| - 1;
      var rest, e := entries[..n], entries[n];
      DistinctPrefix(entries);
      SiftKeepsIdentity(rest, budget, env);
      TransformsKeepRecord(e, env);
      SameRecordItself(e);
      var before, kept := Sift(rest, budget, env).kept, Sift(entries, budget, env).kept;
      forall t | t in before ensures t.File() != e.File() && exists x :: x in entries && SameRecord(x, t) {
        var x :| x in rest && SameRecord(x, t);
        SameRecordIdentity(x, t);
        assert x in entries;
      }
      assert e in entries;
      if kept != before {
        var t := kept[|before|];
        assert kept == before + [t] && SameRecord(e, t);
        SameRecordIdentity(e, t);
        DistinctAppend(before, t);
      }
    }
  }

  lemma NoFiles()
    ensures DistinctFiles([])
  {
  }

  lemma DistinctAppend(entries: seq<MemoryEntry>, e: MemoryEntry)
    requires DistinctFiles(entries) && forall x :: x in entries ==> x.File() != e.File()
    ensures DistinctFiles(entries + [e])
  {
    hide Filename;
    forall i | 0 <= i < |entries| ensures entries[i].File() != e.File() { assert entries[i] in entries; }
  }

  lemma SameIdentityTransitive(a: MemoryEntry, b: MemoryEntry, c: MemoryEntry)
    requires SameIdentity(a, b) && SameIdentity(b, c)
    ensures SameIdentity(a, c)
  {
  }

  lemma SameRecordItself(e: MemoryEntry)
    ensures SameRecord(e, e)
  {
  }

  lemma SameRecordIdentity(e: MemoryEntry, t: MemoryEntry)
    requires SameRecord(e, t)
    ensures SameIdentity(e, t) && e.File() == t.File()
  {
  }

  /**
    Compression as a whole: survivors keep distinct files of inputs; every body that survived the budget
    pass, compressed or whole, is carried by a survivor, and by the survivor in its own file if there is one.
  */
  lemma SurvivorsCoverKept(entries: seq<MemoryEntry>, budget: int, env: Oracle)
    requires DistinctFiles(entries)
    ensures var kept, survivors := Sift(Ranked(entries, env.weigh), budget, env).kept, Survivors(entries, budget, env);
            && DistinctFiles(survivors)
            && (forall o :: o in survivors ==> FromInput(entries, o))
            && (forall e :: e in kept ==> exists o :: o in survivors && Covers(o, e))
            && (forall e, o :: e in kept && o in survivors && o.File() == e.File() ==> Covers(o, e))
  {
    hide Merged, Sift, Ranked, Covers, Filename, SameRecord, SameIdentity, DistinctFiles;
    var ranked := Ranked(entries, env.weigh);
    RankedIsStableSort(entries, env.weigh, 0.0);
    DistinctPermutation(entries, ranked);
    SiftKeepsIdentity(ranked, budget, env);
    var kept := Sift(ranked, budget, env).kept;
    MergeKeepsFiles(kept, env.weigh);
    forall o | o in Survivors(entries, budget, env) ensures FromInput(entries, o) {
      var t :| t in kept && SameIdentity(t, o);
      var e :| e in ranked && SameRecord(e, t);
      assert e in multiset(ranked) && e in multiset(entries) && e in entries;
      SameRecordIdentity(e, t);
      SameIdentityTransitive(e, t, o);
    }
    forall e | e in kept ensures exists o :: o in Merged(kept, env.weigh) && Covers(o, e) { MergeIsLossless(kept, env.weigh, e); }
    forall e, o | e in kept && o in Merged(kept, env.weigh) && o.File() == e.File() ensures Covers(o, e) {
      OwnFileCovers(kept, env.weigh, e, o);
    }
  }

  lemma DistinctPermutation(a: seq<MemoryEntry>, b: seq<MemoryEntry>)
    requires DistinctFiles(a) && multiset(a) == multiset(b)
    ensures DistinctFiles(b)
  {
    hide Filename;
    forall i, j | 0 <= i < j < |b| ensures b[i].File() != b[j].File() {
      assert b[i] in multiset(a) && b[j] in multiset(a);
      if b[i].File() == b[j].File() {
        FilesIdentify(a, b[i], b[j]);
        TwiceInMultiset(b, i, j);
        OnceInDistinct(a, b[i]);
      }
    }
  }

  lemma TwiceInMultiset(b: seq<MemoryEntry>, i: nat, j: nat)
    requires i < j < |b| && b[i] == b[j]
    ensures multiset(b)[b[i]] >= 2
  {
    assert b == b[..j] + [b[j]] + b[j + 1..];
    assert b[..j][i] in multiset(b[..j]);
  }

  lemma {:induction false} OnceInDistinct(a: seq<MemoryEntry>, e: MemoryEntry)
    requires DistinctFiles(a)
    ensures multiset(a)[e] <= 1
    decreases |a|
  {
    hide Filename;
    if |a| > 0 {
      var n := |a| - 1;
      OnceInDistinct(a[..n], e);
      DistinctPrefix(a);
      assert a == a[..n] + [a[n]];
      if e == a[n] { assert e !in a[..n] && e !in multiset(a[..n]); }
    }
  }
}

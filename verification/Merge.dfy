/** Duplicate merging: folding records that share a base title without losing a body or a tag. */
module Merge {
  import opened Text
  import opened Wrappers
  import opened Lists
  import opened Json
  import opened MemoryEntry
  import opened Titles
  import opened MemoryIndex
  import Truncation

  const SEPARATOR: string := "\n\n--- merged duplicate ---\n\n"
  const MAX_MERGED_CHARS: nat := 8192
  const MAX_SOURCES: nat := 64
  const MERGED_FROM: string := "merged_from"

  /** Dictionary assignment: an existing key keeps its place, a new one goes last. */
  function SetMember(members: seq<Member>, key: string, value: Json): (r: seq<Member>)
    ensures Lookup(r, key) == Some(value)
    ensures forall k :: k != key ==> Lookup(r, k) == Lookup(members, k)
  {
    if |members| == 0 then [Member(key, value)]
    else if members[0].key == key then [Member(key, value)] + members[1..]
    else
      var rest := SetMember(members[1..], key, value);
      assert ([members[0]] + rest)[1..] == rest;
      [members[0]] + rest
  }

  function OnlyTexts(items: seq<Json>): seq<string> {
    if |items| == 0 then []
    else (match items[0] case Str(s) => [s] case _ => []) + OnlyTexts(items[1..])
  }

  function FirstSources(texts: seq<string>): seq<string> {
    if |texts| <= MAX_SOURCES then texts else texts[..MAX_SOURCES]
  }

  /** `_merged_source_ids`: the recorded absorbed ids, ignoring anything that is not text. */
  function MergedSources(e: MemoryEntry): seq<string> {
    match Lookup(e.metadata, MERGED_FROM)
    case Some(Arr(items)) => FirstSources(OnlyTexts(items))
    case _ => []
  }

  /** Whether the second body has to be appended to the first. */
  predicate Appends(primary: MemoryEntry, secondary: MemoryEntry) {
    secondary.content != "" && !Contains(primary.content, secondary.content)
  }

  /** `_absorb_duplicate` once the record that keeps its identity is chosen; `weigh` reads an importance number. */
  function AbsorbInto(primary: MemoryEntry, secondary: MemoryEntry, weigh: Json -> real): Option<MemoryEntry> {
    var appends := Appends(primary, secondary);
    var content := if appends then primary.content + SEPARATOR + secondary.content else primary.content;
    if appends && |content| > MAX_MERGED_CHARS then None
    else
      var sources := AddMissing(MergedSources(primary), MergedSources(secondary) + [secondary.id]);
      Some(primary.(
        title := if primary.title == secondary.title then primary.title else BaseTitle(primary.title),
        content := content,
        metadata := SetMember(primary.metadata, MERGED_FROM, Arr(TextItems(FirstSources(sources)))),
        createdAt := if StringLess(secondary.createdAt, primary.createdAt) then secondary.createdAt else primary.createdAt,
        lastAccessed := if StringLess(primary.lastAccessed, secondary.lastAccessed) then secondary.lastAccessed else primary.lastAccessed,
        accessCount := if secondary.accessCount > primary.accessCount then secondary.accessCount else primary.accessCount,
        tags := AddMissing(primary.tags, secondary.tags),
        importance := if weigh(secondary.importance) > weigh(primary.importance) then secondary.importance else primary.importance,
        tokenCount := Truncation.EstimateTokens(content),
        compressed := if appends then primary.compressed && secondary.compressed else primary.compressed))
  }

  /** The record read more often keeps its identity. */
  function Absorb(survivor: MemoryEntry, duplicate: MemoryEntry, weigh: Json -> real): Option<MemoryEntry> {
    if duplicate.accessCount > survivor.accessCount then AbsorbInto(duplicate, survivor, weigh)
    else AbsorbInto(survivor, duplicate, weigh)
  }

  /** The first record with this base title, or the length. */
  function FirstWithBase(merged: seq<MemoryEntry>, base: string): (i: nat)
    ensures i <= |merged|
    ensures i < |merged| ==> BaseTitle(merged[i].title) == base
    ensures forall j :: 0 <= j < i ==> BaseTitle(merged[j].title) != base
  {
    if |merged| == 0 || BaseTitle(merged[0].title) == base then 0
    else 1 + FirstWithBase(merged[1..], base)
  }

  function MergeOne(merged: seq<MemoryEntry>, e: MemoryEntry, weigh: Json -> real): seq<MemoryEntry> {
    var i := FirstWithBase(merged, BaseTitle(e.title));
    if i == |merged| then merged + [e]
    else match Absorb(merged[i], e, weigh)
      case None => merged + [e]
      case Some(absorbed) => merged[i := absorbed]
  }

  /** One merging pass over the records in order. */
  function Merged(entries: seq<MemoryEntry>, weigh: Json -> real): seq<MemoryEntry>
    decreases |entries|
  {
    if |entries| == 0 then [] else MergeOne(Merged(entries[..|entries| - 1], weigh), entries[|entries| - 1], weigh)
  }

  // ---- The loop with its position table ----

  ghost predicate PositionsOf(positions: map<string, nat>, merged: seq<MemoryEntry>) {
    && (forall j :: 0 <= j < |merged| ==> BaseTitle(merged[j].title) in positions)
    && (forall base :: base in positions ==> positions[base] < |merged| && positions[base] == FirstWithBase(merged, base))
  }

  /** `_merge_duplicates`. */
  method MergeDuplicates(entries: seq<MemoryEntry>, weigh: Json -> real) returns (merged: seq<MemoryEntry>)
    ensures merged == Merged(entries, weigh)
  {
    hide Absorb, BaseTitle, FirstWithBase;
    merged := [];
    var positions: map<string, nat> := map[];
    for k := 0 to |entries|
      invariant PositionsOf(positions, merged)
      invariant merged == Merged(entries[..k], weigh)
    {
      var entry := entries[k];
      assert entries[..k + 1][..k] == entries[..k];
      ghost var before := merged;
      var key := StripMarkers(entry.title);
      if key !in positions {
        AbsentBase(positions, merged, key);
        PositionsAppend(positions, merged, entry);
        positions := positions[key := |merged|];
        merged := merged + [entry];
      } else {
        var position := positions[key];
        var absorbed := Absorb(merged[position], entry, weigh);
        match absorbed
        case None =>
          PositionsAppend(positions, merged, entry);
          merged := merged + [entry];
        case Some(record) =>
          AbsorbShape(merged[position], entry, weigh);
          PositionsReplace(positions, merged, position, record);
          merged := merged[position := record];
      }
      assert merged == MergeOne(before, entry, weigh);
    }
    assert entries[..|entries|] == entries;
  }

  lemma AbsentBase(positions: map<string, nat>, merged: seq<MemoryEntry>, base: string)
    requires PositionsOf(positions, merged) && base !in positions
    ensures FirstWithBase(merged, base) == |merged|
  {
    hide BaseTitle;
  }

  lemma {:induction false} FirstAppend(merged: seq<MemoryEntry>, e: MemoryEntry, base: string)
    ensures FirstWithBase(merged + [e], base) ==
            if FirstWithBase(merged, base) < |merged| || BaseTitle(e.title) == base then FirstWithBase(merged, base) else |merged| + 1
  {
    hide BaseTitle;
    if |merged| > 0 {
      FirstAppend(merged[1..], e, base);
      assert (merged + [e])[1..] == merged[1..] + [e];
    } else {
      assert (merged + [e])[1..] == [];
    }
  }

  lemma PositionsAppend(positions: map<string, nat>, merged: seq<MemoryEntry>, e: MemoryEntry)
    requires PositionsOf(positions, merged)
    ensures var base := BaseTitle(e.title);
            PositionsOf(if base in positions then positions else positions[base := |merged|], merged + [e])
  {
    hide BaseTitle, FirstWithBase;
    var key := BaseTitle(e.title);
    if key !in positions { AbsentBase(positions, merged, key); }
    forall base | base in positions || base == key
      ensures FirstWithBase(merged + [e], base) == if base in positions then positions[base] else |merged|
    {
      FirstAppend(merged, e, base);
    }
  }

  lemma {:induction false} FirstReplace(merged: seq<MemoryEntry>, i: nat, e: MemoryEntry, base: string)
    requires i < |merged| && BaseTitle(e.title) == BaseTitle(merged[i].title)
    ensures FirstWithBase(merged[i := e], base) == FirstWithBase(merged, base)
  {
    hide BaseTitle;
    if i > 0 {
      FirstReplace(merged[1..], i - 1, e, base);
      assert merged[i := e][1..] == merged[1..][i - 1 := e];
    } else {
      assert merged[i := e][1..] == merged[1..];
    }
  }

  lemma PositionsReplace(positions: map<string, nat>, merged: seq<MemoryEntry>, i: nat, e: MemoryEntry)
    requires PositionsOf(positions, merged) && i < |merged| && BaseTitle(e.title) == BaseTitle(merged[i].title)
    ensures PositionsOf(positions, merged[i := e])
  {
    hide BaseTitle, FirstWithBase;
    forall base | base in positions ensures FirstWithBase(merged[i := e], base) == positions[base] {
      FirstReplace(merged, i, e, base);
    }
  }

  // ---- What one absorption keeps ----

  /** Everything a reader of `e` would look for is in `o`. */
  ghost predicate Covers(o: MemoryEntry, e: MemoryEntry) {
    && Contains(o.content, e.content)
    && (forall tag :: tag in e.tags ==> tag in o.tags)
    && BaseTitle(o.title) == BaseTitle(e.title)
    && o.accessCount >= e.accessCount
  }

  lemma CoversItself(e: MemoryEntry)
    ensures Covers(e, e)
  {
    assert "" + e.content + "" == e.content;
    ContainsMiddle("", e.content, "");
  }

  lemma CoversTransitive(a: MemoryEntry, b: MemoryEntry, c: MemoryEntry)
    requires Covers(a, b) && Covers(b, c)
    ensures Covers(a, c)
  {
    hide BaseTitle;
    ContainsTransitive(a.content, b.content, c.content);
  }

  lemma ContainsEnds(a: string, b: string)
    ensures Contains(a + b, a) && Contains(a + b, b) && Contains(a, "")
  {
    ContainsMiddle("", a, b);
    assert "" + a + b == a + b;
    ContainsMiddle(a, b, "");
    assert a + b + "" == a + b;
    ContainsMiddle(a, "", "");
    assert a + "" + "" == a;
  }

  lemma AbsorbIntoShape(primary: MemoryEntry, secondary: MemoryEntry, weigh: Json -> real)
    requires BaseTitle(primary.title) == BaseTitle(secondary.title)
    requires AbsorbInto(primary, secondary, weigh).Some?
    ensures var r := AbsorbInto(primary, secondary, weigh).value;
            && Covers(r, primary) && Covers(r, secondary)
            && r.File() == primary.File() && r.memoryType == primary.memoryType && r.id == primary.id
            && (r.content == primary.content || |r.content| <= MAX_MERGED_CHARS)
  {
    hide BaseTitle, Contains, SEPARATOR;
    var r := AbsorbInto(primary, secondary, weigh).value;
    BaseTitleIdempotent(primary.title);
    ContainsEnds(primary.content, "");
    assert primary.content + "" == primary.content;
    if Appends(primary, secondary) {
      ContainsEnds(primary.content + SEPARATOR, secondary.content);
      ContainsEnds(primary.content, SEPARATOR + secondary.content);
      ConcatAssoc(primary.content, SEPARATOR, secondary.content);
    } else if secondary.content == "" {
      ContainsEnds(primary.content, "");
    }
  }

  lemma BaseTitleIdempotent(title: string)
    ensures BaseTitle(BaseTitle(title)) == BaseTitle(title)
  {
    UnmarkedIsBase(BaseTitle(title));
  }

  lemma {:induction false} OnlyTextsOfText(texts: seq<string>)
    ensures OnlyTexts(TextItems(texts)) == texts
  {
    if |texts| > 0 {
      OnlyTextsOfText(texts[1..]);
      assert TextItems(texts)[1..] == TextItems(texts[1..]);
    }
  }

  /** The absorbed record's id and sources are recorded, up to the limit, after the survivor's own. */
  lemma AbsorbRecordsSources(primary: MemoryEntry, secondary: MemoryEntry, weigh: Json -> real)
    requires AbsorbInto(primary, secondary, weigh).Some?
    ensures var r := AbsorbInto(primary, secondary, weigh).value;
            && |MergedSources(r)| <= MAX_SOURCES
            && MergedSources(primary) <= MergedSources(r)
            && (|MergedSources(r)| < MAX_SOURCES ==>
                  && secondary.id in MergedSources(r)
                  && forall x :: x in MergedSources(secondary) ==> x in MergedSources(r))
  {
    hide BaseTitle, Contains, SEPARATOR, SetMember, AddMissing;
    var sources := AddMissing(MergedSources(primary), MergedSources(secondary) + [secondary.id]);
    OnlyTextsOfText(FirstSources(sources));
  }

  /** The absorbing record spans both: earliest creation, latest access, most reads, highest importance. */
  lemma AbsorbTakesExtremes(survivor: MemoryEntry, duplicate: MemoryEntry, weigh: Json -> real)
    requires Absorb(survivor, duplicate, weigh).Some?
    ensures var r := Absorb(survivor, duplicate, weigh).value;
            forall e <- [survivor, duplicate] ::
              && !StringLess(e.createdAt, r.createdAt) && !StringLess(r.lastAccessed, e.lastAccessed)
              && r.accessCount >= e.accessCount && weigh(r.importance) >= weigh(e.importance)
    ensures var r := Absorb(survivor, duplicate, weigh).value;
            && r.createdAt in [survivor.createdAt, duplicate.createdAt] && r.lastAccessed in [survivor.lastAccessed, duplicate.lastAccessed]
            && r.accessCount in [survivor.accessCount, duplicate.accessCount] && r.importance in [survivor.importance, duplicate.importance]
  {
    hide BaseTitle, Contains, SetMember, AddMissing, StringLess, Truncation.EstimateTokens;
    StringLessTotal(survivor.createdAt, duplicate.createdAt);
    StringLessTotal(duplicate.createdAt, survivor.createdAt);
    StringLessTotal(survivor.lastAccessed, duplicate.lastAccessed);
    StringLessTotal(duplicate.lastAccessed, survivor.lastAccessed);
  }

  lemma AbsorbShape(survivor: MemoryEntry, duplicate: MemoryEntry, weigh: Json -> real)
    requires BaseTitle(survivor.title) == BaseTitle(duplicate.title)
    requires Absorb(survivor, duplicate, weigh).Some?
    ensures var r := Absorb(survivor, duplicate, weigh).value;
            && Covers(r, survivor) && Covers(r, duplicate)
            && (r.File() == survivor.File() || r.File() == duplicate.File())
            && (r.content == survivor.content || r.content == duplicate.content || |r.content| <= MAX_MERGED_CHARS)
            && BaseTitle(r.title) == BaseTitle(survivor.title)
  {
    hide BaseTitle, AbsorbInto, Contains;
    if duplicate.accessCount > survivor.accessCount {
      AbsorbIntoShape(duplicate, survivor, weigh);
    } else {
      AbsorbIntoShape(survivor, duplicate, weigh);
    }
  }

  /** The more often read of two records, the earlier one on a tie, and the other. */
  function ReadMost(a: MemoryEntry, b: MemoryEntry): (MemoryEntry, MemoryEntry) {
    if b.accessCount > a.accessCount then (b, a) else (a, b)
  }

  /**
    The record read more often keeps its identity and its parent. The other body is appended, behind the separator, unless it
    is empty or already part of the first; absorption is refused exactly when that would make the body too long.
  */
  lemma AbsorbKeepsReadMost(survivor: MemoryEntry, duplicate: MemoryEntry, weigh: Json -> real)
    ensures var (p, q) := ReadMost(survivor, duplicate);
            var joins := q.content != "" && !Contains(p.content, q.content);
            && (Absorb(survivor, duplicate, weigh).None? <==> joins && |p.content| + |SEPARATOR| + |q.content| > MAX_MERGED_CHARS)
            && (Absorb(survivor, duplicate, weigh).Some? ==>
                  var r := Absorb(survivor, duplicate, weigh).value;
                  && r.id == p.id && r.memoryType == p.memoryType && r.parentId == p.parentId && r.File() == p.File()
                  && r.content == (if joins then p.content + SEPARATOR + q.content else p.content)
                  && r.compressed == (p.compressed && (joins ==> q.compressed))
                  && r.tokenCount == Truncation.EstimateTokens(r.content)
                  && (p.title == q.title ==> r.title == p.title) && (p.title != q.title ==> r.title == BaseTitle(p.title))
                  && p.tags <= r.tags && (forall tag :: tag in r.tags <==> tag in p.tags || tag in q.tags)
                  && (forall key :: key != MERGED_FROM ==> Lookup(r.metadata, key) == Lookup(p.metadata, key)))
  {
    hide BaseTitle, Contains, SetMember, AddMissing, StringLess, Truncation.EstimateTokens, SEPARATOR, Filename;
  }

  // ---- What a whole pass keeps ----

  ghost predicate DistinctFiles(entries: seq<MemoryEntry>) {
    forall i, j :: 0 <= i < j < |entries| ==> entries[i].File() != entries[j].File()
  }

  /** One step keeps every record covered. */
  lemma MergeOneCovers(merged: seq<MemoryEntry>, e: MemoryEntry, weigh: Json -> real, o: MemoryEntry)
    requires o in merged || o == e
    ensures exists o' :: o' in MergeOne(merged, e, weigh) && Covers(o', o)
  {
    hide BaseTitle, FirstWithBase, Absorb, Covers;
    var i := FirstWithBase(merged, BaseTitle(e.title));
    var after := MergeOne(merged, e, weigh);
    CoversItself(o);
    if i < |merged| && Absorb(merged[i], e, weigh).Some? {
      AbsorbShape(merged[i], e, weigh);
      assert after[i] in after;
      if o in merged {
        var j :| 0 <= j < |merged| && merged[j] == o;
        assert after[j] in after && Covers(after[j], o);
      }
    } else {
      assert after == merged + [e] && o in after;
    }
  }

  /** Where a record of the new list comes from: it was there, it is the new one, or it covers both. */
  ghost predicate Origin(merged: seq<MemoryEntry>, e: MemoryEntry, o': MemoryEntry, o: MemoryEntry) {
    && o in merged && Covers(o', o) && Covers(o', e)
    && (o'.File() == o.File() || o'.File() == e.File())
    && (|o'.content| <= MAX_MERGED_CHARS || o'.content == o.content || o'.content == e.content)
  }

  lemma MergeOneOrigins(merged: seq<MemoryEntry>, e: MemoryEntry, weigh: Json -> real, o': MemoryEntry)
    requires o' in MergeOne(merged, e, weigh)
    ensures o' in merged || o' == e || exists o :: Origin(merged, e, o', o)
  {
    hide BaseTitle, FirstWithBase, Absorb, Covers, Filename;
    var i := FirstWithBase(merged, BaseTitle(e.title));
    if i < |merged| && Absorb(merged[i], e, weigh).Some? {
      AbsorbShape(merged[i], e, weigh);
      if o' == Absorb(merged[i], e, weigh).value { assert Origin(merged, e, o', merged[i]); }
    }
  }

  /** Lossless: each input's body, tags and base title are carried by some output. */
  lemma {:induction false} MergeIsLossless(entries: seq<MemoryEntry>, weigh: Json -> real, e: MemoryEntry)
    requires e in entries
    ensures exists o :: o in Merged(entries, weigh) && Covers(o, e)
    decreases |entries|
  {
    hide MergeOne, Covers;
    var rest, last := entries[..|entries| - 1], entries[|entries| - 1];
    if e in rest {
      MergeIsLossless(rest, weigh, e);
      var o :| o in Merged(rest, weigh) && Covers(o, e);
      MergeOneCovers(Merged(rest, weigh), last, weigh, o);
      var o' :| o' in Merged(entries, weigh) && Covers(o', o);
      CoversTransitive(o', o, e);
    } else {
      MergeOneCovers(Merged(rest, weigh), last, weigh, e);
    }
  }

  /** An absorption that appends stays within the limit: any longer output body is some input's own. */
  lemma {:induction false} MergeIsBounded(entries: seq<MemoryEntry>, weigh: Json -> real, o: MemoryEntry)
    requires o in Merged(entries, weigh)
    ensures |o.content| <= MAX_MERGED_CHARS || exists e :: e in entries && e.content == o.content
    decreases |entries|
  {
    hide MergeOne, Covers, Filename;
    if |entries| > 0 {
      var rest, last := entries[..|entries| - 1], entries[|entries| - 1];
      assert last in entries;
      var before := Merged(rest, weigh);
      MergeOneOrigins(before, last, weigh, o);
      if o in before {
        MergeIsBounded(rest, weigh, o);
      } else if o != last {
        var p :| Origin(before, last, o, p);
        MergeIsBounded(rest, weigh, p);
      }
    }
  }

  ghost predicate FromInput(entries: seq<MemoryEntry>, o: MemoryEntry) {
    exists e :: e in entries && SameIdentity(e, o)
  }

  predicate SameIdentity(e: MemoryEntry, o: MemoryEntry) {
    e.File() == o.File() && e.memoryType == o.memoryType && e.id == o.id
  }

  /** Survivors keep the names of inputs, each at most once. */
  lemma {:induction false} MergeKeepsFiles(entries: seq<MemoryEntry>, weigh: Json -> real)
    requires DistinctFiles(entries)
    ensures DistinctFiles(Merged(entries, weigh))
    ensures forall o :: o in Merged(entries, weigh) ==> FromInput(entries, o)
    decreases |entries|
  {
    hide MergeOne, Filename;
    if |entries| > 0 {
      var rest, last := entries[..|entries| - 1], entries[|entries| - 1];
      MergeKeepsFiles(rest, weigh);
      DistinctPrefix(entries);
      var before := Merged(rest, weigh);
      forall p | p in before ensures FromInput(entries, p) && p.File() != last.File() {
        var e :| e in rest && SameIdentity(e, p);
        assert e in entries;
      }
      MergeOneKeepsFiles(before, last, weigh);
      forall o | o in Merged(entries, weigh) ensures FromInput(entries, o) {
        assert last in entries;
        if !SameIdentity(last, o) {
          var p :| p in before && SameIdentity(p, o);
          var e :| e in entries && SameIdentity(e, p);
        }
      }
    }
  }

  lemma MergeOneKeepsFiles(merged: seq<MemoryEntry>, e: MemoryEntry, weigh: Json -> real)
    requires DistinctFiles(merged) && forall o :: o in merged ==> o.File() != e.File()
    ensures DistinctFiles(MergeOne(merged, e, weigh))
    ensures forall o :: o in MergeOne(merged, e, weigh) ==> SameIdentity(e, o) || exists p :: p in merged && SameIdentity(p, o)
  {
    hide BaseTitle, FirstWithBase, Absorb, Filename;
    var after := MergeOne(merged, e, weigh);
    var i := FirstWithBase(merged, BaseTitle(e.title));
    forall p | p in merged ensures SameIdentity(p, p) && p.File() != e.File() {}
    if i < |merged| && Absorb(merged[i], e, weigh).Some? {
      AbsorbIdentity(merged[i], e, weigh);
      assert merged[i] in merged;
      forall j | 0 <= j < |merged| && j != i ensures after[j].File() != after[i].File() {
        assert after[j] == merged[j] && merged[j] in merged;
      }
    }
  }

  lemma AbsorbIdentity(survivor: MemoryEntry, duplicate: MemoryEntry, weigh: Json -> real)
    requires Absorb(survivor, duplicate, weigh).Some?
    ensures var r := Absorb(survivor, duplicate, weigh).value;
            SameIdentity(survivor, r) || SameIdentity(duplicate, r)
  {
  }

  lemma FilesIdentify(entries: seq<MemoryEntry>, e: MemoryEntry, f: MemoryEntry)
    requires DistinctFiles(entries) && e in entries && f in entries && e.File() == f.File()
    ensures e == f
  {
    hide Filename;
    var i :| 0 <= i < |entries| && entries[i] == e;
    var j :| 0 <= j < |entries| && entries[j] == f;
  }

  /** The output that keeps an input's file also keeps that input's body. */
  lemma {:induction false} OwnFileCovers(entries: seq<MemoryEntry>, weigh: Json -> real, e: MemoryEntry, o: MemoryEntry)
    requires DistinctFiles(entries) && e in entries && o in Merged(entries, weigh) && o.File() == e.File()
    ensures Covers(o, e)
    decreases |entries|, 1
  {
    hide MergeOne, Covers, Filename, DistinctFiles;
    var rest, last := entries[..|entries| - 1], entries[|entries| - 1];
    var before := Merged(rest, weigh);
    DistinctPrefix(entries);
    CoversItself(last);
    MergeOneOrigins(before, last, weigh, o);
    if o in before {
      OwnFileStep(entries, weigh, e, o);
    } else if o == last {
      FilesIdentify(entries, e, last);
    } else {
      var p :| Origin(before, last, o, p);
      if o.File() == last.File() {
        FilesIdentify(entries, e, last);
      } else {
        OwnFileStep(entries, weigh, e, p);
        CoversTransitive(o, p, e);
      }
    }
  }

  lemma DistinctPrefix(entries: seq<MemoryEntry>)
    requires |entries| > 0 && DistinctFiles(entries)
    ensures var n := |entries| - 1; DistinctFiles(entries[..n]) && forall e :: e in entries[..n] ==> e.File() != entries[n].File()
  {
    hide Filename;
    var n := |entries| - 1;
    forall e | e in entries[..n] ensures e.File() != entries[n].File() {
      var j :| 0 <= j < n && entries[..n][j] == e;
    }
  }

  lemma {:induction false} OwnFileStep(entries: seq<MemoryEntry>, weigh: Json -> real, e: MemoryEntry, p: MemoryEntry)
    requires DistinctFiles(entries) && e in entries && p.File() == e.File()
    requires p in Merged(entries[..|entries| - 1], weigh)
    ensures Covers(p, e)
    decreases |entries|, 0
  {
    hide Merged, Covers, Filename, DistinctFiles;
    var n := |entries| - 1;
    DistinctPrefix(entries);
    MergeKeepsFiles(entries[..n], weigh);
    assert e in entries[..n] by {
      var f :| f in entries[..n] && f.File() == p.File();
      assert f in entries;
      FilesIdentify(entries, e, f);
    }
    OwnFileCovers(entries[..n], weigh, e, p);
  }

  // ---- Convergence ----

  lemma {:induction false} MergeNeverGrows(entries: seq<MemoryEntry>, weigh: Json -> real)
    ensures |Merged(entries, weigh)| <= |entries|
    ensures |entries| > 0 ==> |Merged(entries, weigh)| > 0
    decreases |entries|
  {
    hide BaseTitle, FirstWithBase, Absorb;
    if |entries| > 0 { MergeNeverGrows(entries[..|entries| - 1], weigh); }
  }

  /** A pass that keeps the count changed nothing. */
  lemma {:induction false} SameCountMeansUnchanged(entries: seq<MemoryEntry>, weigh: Json -> real)
    requires |Merged(entries, weigh)| == |entries|
    ensures Merged(entries, weigh) == entries
    decreases |entries|
  {
    hide BaseTitle, FirstWithBase, Absorb;
    if |entries| > 0 {
      var rest := entries[..|entries| - 1];
      MergeNeverGrows(rest, weigh);
      SameCountMeansUnchanged(rest, weigh);
      assert entries == rest + [entries[|entries| - 1]];
    }
  }

  function Passes(entries: seq<MemoryEntry>, weigh: Json -> real, n: nat): seq<MemoryEntry>
    decreases n
  {
    if n == 0 then entries else Passes(Merged(entries, weigh), weigh, n - 1)
  }

  /** At most as many passes as there are records reach a fixed point. */
  lemma {:induction false} PassesConverge(entries: seq<MemoryEntry>, weigh: Json -> real, n: nat)
    requires n >= |entries|
    ensures var last := Passes(entries, weigh, n); Merged(last, weigh) == last
    decreases n
  {
    hide Merged;
    MergeNeverGrows(entries, weigh);
    if n == 0 {
      SameCountMeansUnchanged(entries, weigh);
    } else if |Merged(entries, weigh)| == |entries| {
      SameCountMeansUnchanged(entries, weigh);
      FixedStaysFixed(entries, weigh, n);
    } else {
      PassesConverge(Merged(entries, weigh), weigh, n - 1);
    }
  }

  lemma {:induction false} FixedStaysFixed(entries: seq<MemoryEntry>, weigh: Json -> real, n: nat)
    requires Merged(entries, weigh) == entries
    ensures Passes(entries, weigh, n) == entries
  {
    hide Merged;
    if n > 0 { FixedStaysFixed(entries, weigh, n - 1); }
  }

  /** Nothing loses a body over any number of passes either. */
  lemma {:induction false} PassesAreLossless(entries: seq<MemoryEntry>, weigh: Json -> real, n: nat, e: MemoryEntry)
    requires e in entries
    ensures exists o :: o in Passes(entries, weigh, n) && Covers(o, e)
    decreases n
  {
    hide Merged, Covers;
    if n == 0 {
      CoversItself(e);
    } else {
      MergeIsLossless(entries, weigh, e);
      var p :| p in Merged(entries, weigh) && Covers(p, e);
      PassesAreLossless(Merged(entries, weigh), weigh, n - 1, p);
      var o :| o in Passes(Merged(entries, weigh), weigh, n - 1) && Covers(o, p);
      CoversTransitive(o, p, e);
    }
  }

  /** The record would be folded into the first earlier one with its base title. */
  predicate FoldsAt(entries: seq<MemoryEntry>, k: nat, weigh: Json -> real)
    requires k < |entries|
  {
    var i := FirstWithBase(entries[..k], BaseTitle(entries[k].title));
    i < k && Absorb(entries[i], entries[k], weigh).Some?
  }

  /** A list is a fixed point exactly when no record can be folded into the first earlier one sharing its base title. */
  lemma {:induction false} FixedPointIff(entries: seq<MemoryEntry>, weigh: Json -> real)
    ensures Merged(entries, weigh) == entries <==> forall k :: 0 <= k < |entries| ==> !FoldsAt(entries, k, weigh)
    decreases |entries|
  {
    hide MergeOne, FoldsAt;
    if |entries| > 0 {
      var n := |entries| - 1;
      var rest := entries[..n];
      FixedPointIff(rest, weigh);
      MergeNeverGrows(rest, weigh);
      forall k | 0 <= k < n ensures FoldsAt(rest, k, weigh) == FoldsAt(entries, k, weigh) {
        FoldsAtPrefix(entries, k, weigh);
      }
      MergeLastIff(entries, weigh);
      if Merged(entries, weigh) == entries { SameCountMeansUnchanged(rest, weigh); }
    }
  }

  lemma FoldsAtPrefix(entries: seq<MemoryEntry>, k: nat, weigh: Json -> real)
    requires k < |entries| - 1
    ensures FoldsAt(entries[..|entries| - 1], k, weigh) == FoldsAt(entries, k, weigh)
  {
    assert entries[..|entries| - 1][..k] == entries[..k];
  }

  lemma MergeLastIff(entries: seq<MemoryEntry>, weigh: Json -> real)
    requires |entries| > 0
    ensures var n := |entries| - 1;
            && (MergeOne(entries[..n], entries[n], weigh) == entries <==> !FoldsAt(entries, n, weigh))
            && (MergeOne(Merged(entries[..n], weigh), entries[n], weigh) == entries ==> |Merged(entries[..n], weigh)| == n)
  {
    hide BaseTitle, FirstWithBase, Absorb, Merged;
    var n := |entries| - 1;
    MergeNeverGrows(entries[..n], weigh);
    assert entries == entries[..n] + [entries[n]];
  }
}

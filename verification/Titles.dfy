/** Compression markers on titles: the base title a record shares with its transformed twins. */
module Titles {
  import opened Text

  const MARKERS: seq<string> := [" [truncated]", " [summary]", " [llm-summary]"]

  predicate Marked(title: string) {
    exists m <- MARKERS :: EndsWith(title, m)
  }

  function DropMarker(title: string, marker: string): (r: string)
    ensures |r| <= |title|
  {
    if EndsWith(title, marker) then title[..|title| - |marker|] else title
  }

  /** The title without any trailing run of markers. */
  function BaseTitle(title: string): (base: string)
    ensures |base| <= |title| && base == title[..|base|]
    ensures !Marked(base)
    decreases |title|
  {
    MarkersNotEmpty();
    if EndsWith(title, MARKERS[0]) then BaseTitle(DropMarker(title, MARKERS[0]))
    else if EndsWith(title, MARKERS[1]) then BaseTitle(DropMarker(title, MARKERS[1]))
    else if EndsWith(title, MARKERS[2]) then BaseTitle(DropMarker(title, MARKERS[2]))
    else title
  }

  /** `_marked_title`. */
  function MarkedTitle(title: string, marker: string): string {
    BaseTitle(title) + marker
  }

  lemma MarkersNotEmpty()
    ensures |MARKERS| == 3 && |MARKERS[0]| == 12 && |MARKERS[1]| == 10 && |MARKERS[2]| == 14
    ensures forall m :: m in MARKERS <==> m == MARKERS[0] || m == MARKERS[1] || m == MARKERS[2]
  {
  }

  /** No marker is a suffix of another, so at most one applies. */
  lemma MarkerUnique(title: string, m: string, n: string)
    requires m in MARKERS && n in MARKERS && EndsWith(title, m) && EndsWith(title, n)
    ensures m == n
  {
    var k := |title|;
    assert MARKERS[0][1] == '[' && MARKERS[0][10] == 'd' && MARKERS[1][8] == 'y' && MARKERS[2][12] == 'y';
    assert MARKERS[1][0] == ' ' && MARKERS[2][4] == 'm';
    assert title[k - 2] == m[|m| - 2] == n[|n| - 2];
    assert title[k - 10] == m[|m| - 10] == n[|n| - 10];
  }

  lemma BaseTitleStep(title: string, m: string)
    requires m in MARKERS
    ensures BaseTitle(DropMarker(title, m)) == BaseTitle(title)
  {
    MarkersNotEmpty();
    if EndsWith(title, m) {
      forall n <- MARKERS | EndsWith(title, n) ensures n == m { MarkerUnique(title, m, n); }
    }
  }

  lemma UnmarkedIsBase(title: string)
    requires !Marked(title)
    ensures BaseTitle(title) == title
  {
    MarkersNotEmpty();
  }

  /** `_base_title`: sweep the markers until a whole sweep changes nothing. */
  method StripMarkers(title: string) returns (stripped: string)
    ensures stripped == BaseTitle(title)
  {
    hide MARKERS, EndsWith;
    MarkersNotEmpty();
    stripped := title;
    var changed := true;
    while changed
      invariant BaseTitle(stripped) == BaseTitle(title)
      invariant !changed ==> !Marked(stripped)
      decreases |stripped|, changed
    {
      changed := false;
      ghost var before := stripped;
      for i := 0 to |MARKERS|
        invariant BaseTitle(stripped) == BaseTitle(title)
        invariant |stripped| <= |before| && (changed ==> |stripped| < |before|)
        invariant !changed ==> stripped == before && forall j :: 0 <= j < i ==> !EndsWith(stripped, MARKERS[j])
      {
        if EndsWith(stripped, MARKERS[i]) {
          BaseTitleStep(stripped, MARKERS[i]);
          EndsWithFits(stripped, MARKERS[i]);
          stripped := stripped[..|stripped| - |MARKERS[i]|];
          changed := true;
        }
      }
    }
    UnmarkedIsBase(stripped);
  }

  lemma EndsWithFits(title: string, m: string)
    requires EndsWith(title, m)
    ensures |m| <= |title| && DropMarker(title, m) == title[..|title| - |m|] && DropMarker(title, m) + m == title
  {
  }

  /** Appending markers never changes the base title. */
  lemma BaseTitleOfMarked(title: string, marker: string)
    requires marker in MARKERS
    ensures BaseTitle(title + marker) == BaseTitle(title)
    ensures BaseTitle(MarkedTitle(title, marker)) == BaseTitle(title)
  {
    var base := BaseTitle(title);
    assert EndsWith(title + marker, marker) && DropMarker(title + marker, marker) == title;
    BaseTitleStep(title + marker, marker);
    assert EndsWith(base + marker, marker) && DropMarker(base + marker, marker) == base;
    BaseTitleStep(base + marker, marker);
    UnmarkedIsBase(base);
  }

  /** Repeated marking never stacks: only the last marker shows. */
  lemma MarkingNeverStacks(title: string, first: string, second: string)
    requires first in MARKERS && second in MARKERS
    ensures MarkedTitle(MarkedTitle(title, first), second) == MarkedTitle(title, second)
    ensures MarkedTitle(MarkedTitle(title, first), first) == MarkedTitle(title, first)
  {
    BaseTitleOfMarked(title, first);
  }

  function Concat(parts: seq<string>): string {
    if |parts| == 0 then "" else parts[0] + Concat(parts[1..])
  }

  /** The base title is the one unmarked text that the title extends by markers alone. */
  lemma {:induction false} BaseTitleUnique(base: string, markers: seq<string>)
    requires !Marked(base) && forall m <- markers :: m in MARKERS
    ensures BaseTitle(base + Concat(markers)) == base
    decreases |markers|
  {
    if |markers| == 0 {
      assert base + "" == base;
      UnmarkedIsBase(base);
    } else {
      var k := |markers| - 1;
      BaseTitleUnique(base, markers[..k]);
      ConcatLast(markers);
      ConcatAssoc(base, Concat(markers[..k]), markers[k]);
      BaseTitleOfMarked(base + Concat(markers[..k]), markers[k]);
    }
  }

  lemma {:induction false} ConcatLast(parts: seq<string>)
    requires |parts| > 0
    ensures Concat(parts) == Concat(parts[..|parts| - 1]) + parts[|parts| - 1]
  {
    if |parts| == 1 {
      assert parts[1..] == [];
    } else {
      ConcatLast(parts[1..]);
      assert parts[1..][..|parts| - 2] == parts[..|parts| - 1][1..];
      ConcatAssoc(parts[0], Concat(parts[..|parts| - 1][1..]), parts[|parts| - 1]);
    }
  }

  lemma {:induction false} TitleIsBaseAndMarkers(title: string) returns (markers: seq<string>)
    ensures (forall m <- markers :: m in MARKERS) && title == BaseTitle(title) + Concat(markers)
    decreases |title|
  {
    hide MARKERS, EndsWith, DropMarker;
    MarkersNotEmpty();
    if Marked(title) {
      var m :| m in MARKERS && EndsWith(title, m);
      var shorter := DropMarker(title, m);
      BaseTitleStep(title, m);
      EndsWithFits(title, m);
      var rest := TitleIsBaseAndMarkers(shorter);
      markers := rest + [m];
      ConcatLast(markers);
      assert markers[..|rest|] == rest;
      ConcatAssoc(BaseTitle(title), Concat(rest), m);
    } else {
      UnmarkedIsBase(title);
      markers := [];
    }
  }

  /** Two titles collide exactly when they extend one unmarked text by markers alone. */
  lemma SameBaseIff(a: string, b: string)
    ensures BaseTitle(a) == BaseTitle(b) <==>
            exists base, ma, mb :: ExtendsByMarkers(a, base, ma) && ExtendsByMarkers(b, base, mb)
  {
    if BaseTitle(a) == BaseTitle(b) {
      var ma := TitleIsBaseAndMarkers(a);
      var mb := TitleIsBaseAndMarkers(b);
      assert ExtendsByMarkers(a, BaseTitle(a), ma) && ExtendsByMarkers(b, BaseTitle(a), mb);
    }
    forall base, ma, mb | ExtendsByMarkers(a, base, ma) && ExtendsByMarkers(b, base, mb) ensures BaseTitle(a) == BaseTitle(b) {
      BaseTitleUnique(base, ma);
      BaseTitleUnique(base, mb);
    }
  }

  ghost predicate ExtendsByMarkers(title: string, base: string, markers: seq<string>) {
    !Marked(base) && (forall m <- markers :: m in MARKERS) && title == base + Concat(markers)
  }
}

/**
 * `cleanup_duplicate_assignments` as the loops it is: fill the groups dict,
 * scan each group of two or more for the widest span, delete the rest and
 * count. Each method is proved against the specification functions of
 * `CleanupModel`.
 */
module Cleanup {
  import opened Wrappers
  import opened CleanupModel

  /** The grouping loop: skip non-manual documents, append each other to its key's list. */
  method GroupManual(docs: seq<Doc>) returns (order: seq<GroupKey>, groups: map<GroupKey, seq<Doc>>)
    ensures order == KeyOrder(docs)
    ensures forall k :: k in groups <==> k in order
    ensures forall k :: k in groups ==> groups[k] == Members(docs, k)
  {
    order, groups := [], map[];
    for i := 0 to |docs|
      invariant order == KeyOrder(docs[..i])
      invariant forall k :: k in groups <==> k in order
      invariant forall k :: k in groups ==> groups[k] == Members(docs[..i], k)
      invariant forall k :: k !in groups ==> Members(docs[..i], k) == []
    {
      assert docs[..i + 1][..i] == docs[..i];
      var d := docs[i];
      if d.data.isManual {
        var key := KeyOf(d);
        if key !in groups {
          groups := groups[key := []];
          order := order + [key];
        }
        groups := groups[key := groups[key] + [d]];
      }
    }
    assert docs[..|docs|] == docs;
  }

  /** The start, end and span the scan computes for one member. */
  method Measure(a: Assignment) returns (start: nat, end: nat, span: nat)
    ensures ExtentOf(a) == Extent(span, start)
    ensures end == TimeToMinutes(a.endTime) && span == (if end > start then end - start else 0)
  {
    start := TimeToMinutes(a.startTime);
    end := TimeToMinutes(a.endTime);
    span := if end > start then end - start else 0;
  }

  /**
   * What the scan variables hold after the first `i` members: the initial
   * values before any, and otherwise the running best's id, span and start.
   */
  predicate Scanned(g: seq<Doc>, i: nat, widestDoc: Option<DocId>, widestSpan: int, earliestStart: Option<int>)
    requires i <= |g|
  {
    if i == 0 then widestDoc == None && widestSpan == 0 && earliestStart == None
    else
      var best := Winner(Extents(g)[..i]);
      && widestDoc == Some(g[best].id)
      && widestSpan == Span(g[best].data)
      && earliestStart == Some(StartOf(g[best].data))
  }

  /** A member that is wider, or as wide and earlier (or first), becomes the running best. */
  lemma ScanTakes(g: seq<Doc>, i: nat, widestDoc: Option<DocId>, widestSpan: int, earliestStart: Option<int>)
    requires i < |g| && Scanned(g, i, widestDoc, widestSpan, earliestStart)
    requires var e := ExtentOf(g[i].data);
      e.span > widestSpan || (e.span == widestSpan && (earliestStart.None? || e.start < earliestStart.value))
    ensures Scanned(g, i + 1, Some(g[i].id), Span(g[i].data), Some(StartOf(g[i].data)))
  {
    WinnerStep(Extents(g), i);
  }

  /** Any other member leaves the running best as it is. */
  lemma ScanKeeps(g: seq<Doc>, i: nat, widestDoc: Option<DocId>, widestSpan: int, earliestStart: Option<int>)
    requires i < |g| && Scanned(g, i, widestDoc, widestSpan, earliestStart)
    requires var e := ExtentOf(g[i].data);
      !(e.span > widestSpan || (e.span == widestSpan && (earliestStart.None? || e.start < earliestStart.value)))
    ensures Scanned(g, i + 1, widestDoc, widestSpan, earliestStart)
  {
    WinnerStep(Extents(g), i);
  }

  /**
   * The scan over one group: keep the widest span, an equal span with an
   * earlier start displacing the current best; then the fallback to the first
   * member when no (truthy) id was chosen.
   */
  method SelectWidest(g: seq<Doc>) returns (keep: DocId)
    requires |g| > 0
    ensures keep == KeptId(g)
  {
    var widestDoc: Option<DocId> := None;
    var widestSpan: int := 0;
    var earliestStart: Option<int> := None;  // None is float('inf')
    var latestEnd: int := 0;  // kept up to date by the source, never read
    for i := 0 to |g|
      invariant Scanned(g, i, widestDoc, widestSpan, earliestStart)
    {
      var start, end, span := Measure(g[i].data);
      if span > widestSpan {
        ScanTakes(g, i, widestDoc, widestSpan, earliestStart);
        widestSpan := span;
        widestDoc := Some(g[i].id);
        earliestStart := Some(start);
        latestEnd := end;
      } else if span == widestSpan && (earliestStart.None? || start < earliestStart.value) {
        ScanTakes(g, i, widestDoc, widestSpan, earliestStart);
        widestDoc := Some(g[i].id);
        earliestStart := Some(start);
        latestEnd := end;
      } else {
        ScanKeeps(g, i, widestDoc, widestSpan, earliestStart);
      }
    }
    assert Extents(g)[..|g|] == Extents(g);
    // The first member always takes one of the two branches above, so the
    // `not widest_doc` fallback can only be reached through an empty id.
    assert widestDoc.Some?;
    if widestDoc.None? || widestDoc.value == "" {
      keep := g[0].id;
    } else {
      keep := widestDoc.value;
    }
  }

  /** The delete loop over one group: every member whose id is not the kept one, in order. */
  method DeleteOthers(g: seq<Doc>, keep: DocId) returns (ids: seq<DocId>)
    ensures ids == OtherIds(g, keep)
  {
    ids := [];
    for j := 0 to |g|
      invariant ids == OtherIds(g[..j], keep)
    {
      assert g[..j + 1][..j] == g[..j];
      if g[j].id != keep {
        ids := ids + [g[j].id];
      }
    }
    assert g[..|g|] == g;
  }

  /**
   * The endpoint's computation: the ids it deletes, in deletion order, and its
   * `kept` and `deleted` counts.
   */
  method CleanupDuplicates(docs: seq<Doc>) returns (deleted: seq<DocId>, keptCount: nat, deletedCount: nat)
    ensures deleted == DeletedIds(docs)
    ensures keptCount == |KeyOrder(docs)|
    ensures deletedCount == |deleted|
  {
    var order, groups := GroupManual(docs);
    KeyOrderMembers(docs);
    deleted, keptCount, deletedCount := [], 0, 0;
    for i := 0 to |order|
      invariant deleted == DeletedFrom(docs, order[..i])
      invariant keptCount == i && deletedCount == |deleted|
    {
      assert order[..i + 1][..i] == order[..i];
      var g := groups[order[i]];
      if |g| <= 1 {
        keptCount := keptCount + |g|;
      } else {
        var keep := SelectWidest(g);
        keptCount := keptCount + 1;
        var ids := DeleteOthers(g, keep);
        deleted := deleted + ids;
        deletedCount := deletedCount + |ids|;
      }
    }
    assert order[..|order|] == order;
  }
}

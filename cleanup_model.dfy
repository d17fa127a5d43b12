/**
 * The duplicate-assignment cleanup of the backend endpoint
 * `POST /assignments/cleanup/{week}`: its data, its time parser and the
 * specification functions for grouping, selection and deletion that the
 * methods in module `Cleanup` are proved against.
 *
 * The document store is not modelled: the week's assignment documents are
 * given as a sequence of (document id, fields) pairs in stream order, and the
 * result is the list of ids the endpoint deletes.
 */
module CleanupModel {
  import opened Wrappers
  import opened Text
  import opened ClockPattern

  type DocId = string

  /**
   * The fields of one assignment document that the cleanup reads. An absent
   * `shiftId`/`employeeId` is `None` (it still takes part in the key); an
   * absent `role` is `None` and is read as ""; an absent or null time is "".
   */
  datatype Assignment = Assignment(
    shiftId: Option<string>,
    employeeId: Option<string>,
    role: Option<string>,
    startTime: string,
    endTime: string,
    isManual: bool)

  datatype Doc = Doc(id: DocId, data: Assignment)

  /** (shiftId, employeeId, role upper-cased) */
  datatype GroupKey = GroupKey(shiftId: Option<string>, employeeId: Option<string>, role: string)

  function KeyOf(d: Doc): GroupKey {
    GroupKey(d.data.shiftId, d.data.employeeId, Upper(d.data.role.GetOr("")))
  }

  /** `time_to_minutes`: minutes since midnight, 0 for empty or malformed text. */
  function TimeToMinutes(t: string): nat {
    if t == "" then 0
    else
      match MatchClock(Lower(Trim(t)))
      case None => 0
      case Some(m) => Minutes(m)
  }

  function StartOf(a: Assignment): nat { TimeToMinutes(a.startTime) }

  /** `end - start if end > start else 0` */
  function Span(a: Assignment): nat {
    var start := TimeToMinutes(a.startTime);
    var end := TimeToMinutes(a.endTime);
    if end > start then end - start else 0
  }

  // ---------------------------------------------------------------------------
  // Grouping

  /** The manual documents under key `k`, in stream order (`groups[k]`). */
  function Members(docs: seq<Doc>, k: GroupKey): seq<Doc> {
    if docs == [] then []
    else
      var d := docs[|docs| - 1];
      Members(docs[..|docs| - 1], k) + (if d.data.isManual && KeyOf(d) == k then [d] else [])
  }

  /** The keys of the manual documents in order of first appearance (the dict's key order). */
  function KeyOrder(docs: seq<Doc>): seq<GroupKey> {
    if docs == [] then []
    else
      var d := docs[|docs| - 1];
      var order := KeyOrder(docs[..|docs| - 1]);
      if d.data.isManual && KeyOf(d) !in order then order + [KeyOf(d)] else order
  }

  /** Number of documents flagged manual. */
  function ManualCount(docs: seq<Doc>): nat {
    if docs == [] then 0
    else ManualCount(docs[..|docs| - 1]) + (if docs[|docs| - 1].data.isManual then 1 else 0)
  }

  // ---------------------------------------------------------------------------
  // Selection

  /** A member's time range as the scan sees it: its span and its start. */
  datatype Extent = Extent(span: nat, start: nat)

  function ExtentOf(a: Assignment): Extent {
    Extent(Span(a), StartOf(a))
  }

  function Extents(g: seq<Doc>): (es: seq<Extent>)
    ensures |es| == |g|
  {
    seq(|g|, i requires 0 <= i < |g| => ExtentOf(g[i].data))
  }

  /** `a` displaces `b` in the scan: a wider span, or an equal span and an earlier start. */
  predicate Prefer(a: Extent, b: Extent) {
    a.span > b.span || (a.span == b.span && a.start < b.start)
  }

  /**
   * `es[j]` is the survivor the selection rule asks for: no member has a wider
   * span, no member with the same span starts earlier, and every earlier member
   * has a narrower span or a later start.
   */
  ghost predicate IsWidest(es: seq<Extent>, j: int) {
    && 0 <= j < |es|
    && (forall i :: 0 <= i < |es| ==> es[i].span <= es[j].span)
    && (forall i :: 0 <= i < |es| && es[i].span == es[j].span ==> es[j].start <= es[i].start)
    && (forall i :: 0 <= i < j ==> Prefer(es[j], es[i]))
  }

  /** The index the scan settles on: the running best after every member. */
  function Winner(es: seq<Extent>): (j: nat)
    requires |es| > 0
    ensures j < |es|
  {
    if |es| == 1 then 0
    else
      var j := Winner(es[..|es| - 1]);
      if Prefer(es[|es| - 1], es[j]) then |es| - 1 else j
  }

  /** The scan's choice is exactly the member the selection rule asks for. */
  lemma {:induction false} WinnerIsWidest(es: seq<Extent>)
    requires |es| > 0
    ensures IsWidest(es, Winner(es))
  {
    if |es| > 1 {
      var init := es[..|es| - 1];
      WinnerIsWidest(init);
      assert forall i :: 0 <= i < |init| ==> es[i] == init[i];
    }
  }

  /** One more member: it takes over exactly when it is preferred to the running best. */
  lemma WinnerStep(es: seq<Extent>, i: nat)
    requires i < |es|
    ensures i == 0 ==> Winner(es[..i + 1]) == 0
    ensures i > 0 ==> Winner(es[..i + 1]) == if Prefer(es[i], es[Winner(es[..i])]) then i else Winner(es[..i])
  {
    assert es[..i + 1][..i] == es[..i];
  }

  /** The id the endpoint keeps: the winner's, or the first member's when that id is falsy (""). */
  function KeptId(g: seq<Doc>): DocId
    requires |g| > 0
  {
    var w := g[Winner(Extents(g))].id;
    if w == "" then g[0].id else w
  }

  /** The ids of the members of `g` other than `keep`, in order. */
  function OtherIds(g: seq<Doc>, keep: DocId): seq<DocId> {
    if g == [] then []
    else
      var d := g[|g| - 1];
      OtherIds(g[..|g| - 1], keep) + (if d.id != keep then [d.id] else [])
  }

  /** The ids a group gives up: none for a single member, every other member's otherwise. */
  function Losers(g: seq<Doc>): seq<DocId> {
    if |g| <= 1 then [] else OtherIds(g, KeptId(g))
  }

  /** The ids deleted for the groups `ks`, group by group. */
  function DeletedFrom(docs: seq<Doc>, ks: seq<GroupKey>): seq<DocId> {
    if ks == [] then []
    else DeletedFrom(docs, ks[..|ks| - 1]) + Losers(Members(docs, ks[|ks| - 1]))
  }

  /** Every id the endpoint deletes, in deletion order. */
  function DeletedIds(docs: seq<Doc>): seq<DocId> {
    DeletedFrom(docs, KeyOrder(docs))
  }

  /** The documents whose id is not in `del`, in order: the store after deleting `del`. */
  function Without(docs: seq<Doc>, del: seq<DocId>): seq<Doc> {
    if docs == [] then []
    else
      var d := docs[|docs| - 1];
      Without(docs[..|docs| - 1], del) + (if d.id !in del then [d] else [])
  }

  /** Document ids are unique within the week's collection. */
  ghost predicate DistinctIds(docs: seq<Doc>) {
    forall i, j :: 0 <= i < j < |docs| ==> docs[i].id != docs[j].id
  }

  // ---------------------------------------------------------------------------
  // Facts about grouping used by the methods and the lemmas

  /** A key is listed exactly when some manual document carries it; no key is listed twice. */
  lemma {:induction false} KeyOrderMembers(docs: seq<Doc>)
    ensures forall k :: k in KeyOrder(docs) <==> Members(docs, k) != []
    ensures forall i, j :: 0 <= i < j < |KeyOrder(docs)| ==> KeyOrder(docs)[i] != KeyOrder(docs)[j]
  {
    if docs != [] {
      KeyOrderMembers(docs[..|docs| - 1]);
    }
  }
}

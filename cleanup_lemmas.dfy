/**
 * What the cleanup guarantees, stated over the specification functions of
 * `CleanupModel` (which `Cleanup.CleanupDuplicates` is proved to compute):
 * one survivor per group and it is the widest, the counts, idempotence,
 * non-manual documents left alone, and the time parser's readings.
 */
module CleanupLemmas {
  import opened Wrappers
  import opened Text
  import opened ClockPattern
  import opened CleanupModel

  function Ids(g: seq<Doc>): seq<DocId> {
    seq(|g|, i requires 0 <= i < |g| => g[i].id)
  }

  /** The members of `g` whose id is `x`. */
  function WithId(g: seq<Doc>, x: DocId): seq<Doc> {
    if g == [] then []
    else WithId(g[..|g| - 1], x) + (if g[|g| - 1].id == x then [g[|g| - 1]] else [])
  }

  /** Sum of the group sizes over the keys `ks`. */
  function GroupSizes(docs: seq<Doc>, ks: seq<GroupKey>): nat {
    if ks == [] then 0 else GroupSizes(docs, ks[..|ks| - 1]) + |Members(docs, ks[|ks| - 1])|
  }

  function Count(ks: seq<GroupKey>, k: GroupKey): nat {
    if ks == [] then 0 else Count(ks[..|ks| - 1], k) + (if ks[|ks| - 1] == k then 1 else 0)
  }

  // ---------------------------------------------------------------------------
  // Helpers on the recursive filters

  lemma {:induction false} MembersMembership(docs: seq<Doc>, k: GroupKey)
    ensures forall d :: d in Members(docs, k) <==> d in docs && d.data.isManual && KeyOf(d) == k
  {
    if docs != [] {
      MembersMembership(docs[..|docs| - 1], k);
      assert docs == docs[..|docs| - 1] + [docs[|docs| - 1]];
    }
  }

  lemma {:induction false} MembersDistinct(docs: seq<Doc>, k: GroupKey)
    requires DistinctIds(docs)
    ensures DistinctIds(Members(docs, k))
  {
    if docs != [] {
      var init := docs[..|docs| - 1];
      var d := docs[|docs| - 1];
      MembersDistinct(init, k);
      MembersMembership(init, k);
      var m := Members(init, k);
      forall i | 0 <= i < |m| ensures m[i].id != d.id {
        var j :| 0 <= j < |init| && init[j] == m[i];
        assert docs[j] == init[j];
      }
    }
  }

  lemma {:induction false} OtherIdsMembership(g: seq<Doc>, x: DocId)
    ensures forall y :: y in OtherIds(g, x) <==> y != x && y in Ids(g)
  {
    if g != [] {
      var init := g[..|g| - 1];
      OtherIdsMembership(init, x);
      assert Ids(g) == Ids(init) + [g[|g| - 1].id];
    }
  }

  lemma {:induction false} OtherIdsAbsent(g: seq<Doc>, x: DocId)
    requires x !in Ids(g)
    ensures |OtherIds(g, x)| == |g|
  {
    if g != [] {
      var init := g[..|g| - 1];
      assert Ids(g) == Ids(init) + [g[|g| - 1].id];
      OtherIdsAbsent(init, x);
    }
  }

  /** With unique ids, leaving out one member's id leaves all the others. */
  lemma {:induction false} OtherIdsLength(g: seq<Doc>, x: DocId)
    requires DistinctIds(g) && x in Ids(g)
    ensures |OtherIds(g, x)| == |g| - 1
  {
    var init := g[..|g| - 1];
    assert Ids(g) == Ids(init) + [g[|g| - 1].id];
    if g[|g| - 1].id == x {
      assert x !in Ids(init);
      OtherIdsAbsent(init, x);
    } else {
      OtherIdsLength(init, x);
    }
  }

  lemma {:induction false} WithIdUnique(g: seq<Doc>, w: nat)
    requires DistinctIds(g) && w < |g|
    ensures WithId(g, g[w].id) == [g[w]]
  {
    var init := g[..|g| - 1];
    var x := g[w].id;
    if w == |g| - 1 {
      WithIdNone(init, x);
    } else {
      assert init[w] == g[w];
      WithIdUnique(init, w);
    }
  }

  lemma {:induction false} WithIdNone(g: seq<Doc>, x: DocId)
    requires forall i :: 0 <= i < |g| ==> g[i].id != x
    ensures WithId(g, x) == []
  {
    if g != [] {
      WithIdNone(g[..|g| - 1], x);
    }
  }

  /** Deleting a set of ids only depends on which of the members' ids it holds. */
  lemma {:induction false} WithoutCongruent(g: seq<Doc>, a: seq<DocId>, b: seq<DocId>)
    requires forall i :: 0 <= i < |g| ==> (g[i].id in a <==> g[i].id in b)
    ensures Without(g, a) == Without(g, b)
  {
    if g != [] {
      WithoutCongruent(g[..|g| - 1], a, b);
    }
  }

  lemma {:induction false} WithoutOthers(g: seq<Doc>, x: DocId)
    ensures Without(g, OtherIds(g, x)) == WithId(g, x)
  {
    OtherIdsMembership(g, x);
    forall i | 0 <= i < |g| ensures (g[i].id in OtherIds(g, x) <==> g[i].id != x) {
      assert g[i].id == Ids(g)[i];
    }
    WithoutOthersBy(g, x, OtherIds(g, x));
  }

  lemma {:induction false} WithoutOthersBy(g: seq<Doc>, x: DocId, del: seq<DocId>)
    requires forall i :: 0 <= i < |g| ==> (g[i].id in del <==> g[i].id != x)
    ensures Without(g, del) == WithId(g, x)
  {
    if g != [] {
      WithoutOthersBy(g[..|g| - 1], x, del);
    }
  }

  lemma {:induction false} WithoutEmpty(g: seq<Doc>)
    ensures Without(g, []) == g
  {
    if g != [] {
      WithoutEmpty(g[..|g| - 1]);
    }
  }

  /** Deleting commutes with grouping. */
  lemma {:induction false} MembersWithout(docs: seq<Doc>, del: seq<DocId>, k: GroupKey)
    ensures Members(Without(docs, del), k) == Without(Members(docs, k), del)
  {
    if docs != [] {
      var init := docs[..|docs| - 1];
      var d := docs[|docs| - 1];
      MembersWithout(init, del, k);
      var mi := Members(init, k);
      var wi := Without(init, del);
      var keep := d.data.isManual && KeyOf(d) == k;
      if d.id in del {
        assert Without(docs, del) == wi;
        if keep {
          var m := mi + [d];
          assert Members(docs, k) == m;
          assert m[..|m| - 1] == mi && m[|m| - 1] == d;
          assert Without(m, del) == Without(mi, del);
        } else {
          assert Members(docs, k) == mi;
        }
      } else {
        var w := wi + [d];
        assert Without(docs, del) == w;
        assert w[..|w| - 1] == wi && w[|w| - 1] == d;
        if keep {
          var m := mi + [d];
          assert Members(docs, k) == m;
          assert m[..|m| - 1] == mi && m[|m| - 1] == d;
          assert Without(m, del) == Without(mi, del) + [d];
          assert Members(w, k) == Members(wi, k) + [d];
        } else {
          assert Members(docs, k) == mi;
          assert Members(w, k) == Members(wi, k);
        }
      }
    }
  }

  /** Every id of a deleted list loses in the group of one of the listed keys ... */
  lemma {:induction false} DeletedFromOwner(docs: seq<Doc>, ks: seq<GroupKey>, y: DocId) returns (k: GroupKey)
    requires y in DeletedFrom(docs, ks)
    ensures k in ks && y in Losers(Members(docs, k))
  {
    var init := ks[..|ks| - 1];
    if y in DeletedFrom(docs, init) {
      k := DeletedFromOwner(docs, init, y);
    } else {
      k := ks[|ks| - 1];
    }
  }

  /** A listed key other than the last is listed before it. */
  lemma InInit(ks: seq<GroupKey>, k: GroupKey)
    requires k in ks && k != ks[|ks| - 1]
    ensures k in ks[..|ks| - 1]
  {
    assert ks == ks[..|ks| - 1] + [ks[|ks| - 1]];
  }

  /** ... and every loser of a listed group is in it. */
  lemma {:induction false} DeletedFromLoser(docs: seq<Doc>, ks: seq<GroupKey>, k: GroupKey, y: DocId)
    requires k in ks && y in Losers(Members(docs, k))
    ensures y in DeletedFrom(docs, ks)
  {
    var init, last := ks[..|ks| - 1], ks[|ks| - 1];
    var before, lost := DeletedFrom(docs, init), Losers(Members(docs, last));
    assert DeletedFrom(docs, ks) == before + lost;
    if k != last {
      InInit(ks, k);
      DeletedFromLoser(docs, init, k, y);
      assert y in before;
    } else {
      assert y in lost;
    }
  }

  /** An id that the cleanup deletes belongs to a manual document, and loses in its own group. */
  lemma DeletedIsManualLoser(docs: seq<Doc>, i: nat)
    requires DistinctIds(docs) && i < |docs|
    requires docs[i].id in DeletedIds(docs)
    ensures docs[i].data.isManual
    ensures docs[i].id in Losers(Members(docs, KeyOf(docs[i])))
  {
    var y := docs[i].id;
    var k := DeletedFromOwner(docs, KeyOrder(docs), y);
    var e := LoserMember(Members(docs, k), y);
    MembersMembership(docs, k);
    assert e in docs;
    var n :| 0 <= n < |docs| && docs[n] == e;
    assert n == i;
  }

  /** A losing id is the id of a member of the group. */
  lemma LoserMember(g: seq<Doc>, y: DocId) returns (e: Doc)
    requires y in Losers(g)
    ensures e in g && e.id == y
  {
    OtherIdsMembership(g, KeptId(g));
    assert y in Ids(g);
    var j :| 0 <= j < |g| && Ids(g)[j] == y;
    e := g[j];
  }

  // ---------------------------------------------------------------------------
  // One survivor per group, and it is the widest

  /**
   * In every group the documents left after the cleanup are exactly one: the
   * member whose id the endpoint keeps. A group of one keeps its member.
   */
  lemma GroupSurvivor(docs: seq<Doc>, k: GroupKey)
    requires DistinctIds(docs)
    requires k in KeyOrder(docs)
    ensures var g := Members(docs, k);
      |g| > 0 &&
      Without(g, DeletedIds(docs)) == WithId(g, KeptId(g)) &&
      |Without(g, DeletedIds(docs))| == 1
  {
    KeyOrderMembers(docs);
    var g := Members(docs, k);
    var del := DeletedIds(docs);
    MembersMembership(docs, k);
    MembersDistinct(docs, k);
    var x := KeptId(g);
    var w := if g[Winner(Extents(g))].id == "" then 0 else Winner(Extents(g));
    assert g[w].id == x;
    forall i | 0 <= i < |g| ensures (g[i].id in del <==> g[i].id in Losers(g)) {
      var n :| 0 <= n < |docs| && docs[n] == g[i];
      if g[i].id in del {
        DeletedIsManualLoser(docs, n);
      }
      if g[i].id in Losers(g) {
        DeletedFromLoser(docs, KeyOrder(docs), k, g[i].id);
      }
    }
    WithoutCongruent(g, del, Losers(g));
    if |g| == 1 {
      WithoutEmpty(g);
      assert g == [g[0]];
      WithIdUnique(g, 0);
    } else {
      WithoutOthers(g, x);
    }
    WithIdUnique(g, w);
  }

  /**
   * Exactly one survivor per group, and for a group of two or more it is the
   * member the selection rule asks for (widest span, then earliest start, then
   * first), whenever that member's id is a real (non-empty) document id.
   */
  lemma SurvivorIsWidest(docs: seq<Doc>, k: GroupKey)
    requires DistinctIds(docs)
    requires k in KeyOrder(docs)
    requires var g := Members(docs, k); |g| > 0 && g[Winner(Extents(g))].id != ""
    ensures var g := Members(docs, k);
      Without(g, DeletedIds(docs)) == [g[Winner(Extents(g))]] &&
      IsWidest(Extents(g), Winner(Extents(g)))
  {
    var g := Members(docs, k);
    GroupSurvivor(docs, k);
    MembersDistinct(docs, k);
    WithIdUnique(g, Winner(Extents(g)));
    WinnerIsWidest(Extents(g));
  }

  /** Documents not flagged manual are never deleted. */
  lemma NonManualNeverDeleted(docs: seq<Doc>, i: nat)
    requires DistinctIds(docs) && i < |docs|
    requires !docs[i].data.isManual
    ensures docs[i].id !in DeletedIds(docs)
  {
    if docs[i].id in DeletedIds(docs) {
      DeletedIsManualLoser(docs, i);
    }
  }

  // ---------------------------------------------------------------------------
  // Counts

  lemma {:induction false} LosersLength(g: seq<Doc>)
    requires DistinctIds(g) && |g| > 0
    ensures |Losers(g)| == |g| - 1
  {
    if |g| > 1 {
      var w := Winner(Extents(g));
      assert g[w].id == Ids(g)[w] && g[0].id == Ids(g)[0];
      OtherIdsLength(g, KeptId(g));
    }
  }

  lemma {:induction false} DeletedFromLength(docs: seq<Doc>, ks: seq<GroupKey>)
    requires DistinctIds(docs)
    requires forall k :: k in ks ==> Members(docs, k) != []
    ensures |DeletedFrom(docs, ks)| + |ks| == GroupSizes(docs, ks)
  {
    if ks != [] {
      var init := ks[..|ks| - 1];
      assert forall k :: k in init ==> k in ks;
      DeletedFromLength(docs, init);
      MembersDistinct(docs, ks[|ks| - 1]);
      LosersLength(Members(docs, ks[|ks| - 1]));
    }
  }

  lemma {:induction false} GroupSizesStep(docs: seq<Doc>, d: Doc, ks: seq<GroupKey>)
    ensures GroupSizes(docs + [d], ks)
         == GroupSizes(docs, ks) + (if d.data.isManual then Count(ks, KeyOf(d)) else 0)
  {
    if ks != [] {
      GroupSizesStep(docs, d, ks[..|ks| - 1]);
      assert (docs + [d])[..|docs + [d]| - 1] == docs;
    }
  }

  lemma {:induction false} CountDistinct(ks: seq<GroupKey>, k: GroupKey)
    requires forall i, j :: 0 <= i < j < |ks| ==> ks[i] != ks[j]
    ensures Count(ks, k) == if k in ks then 1 else 0
  {
    if ks != [] {
      var init := ks[..|ks| - 1];
      CountDistinct(init, k);
      assert ks == init + [ks[|ks| - 1]];
      if ks[|ks| - 1] == k {
        assert k !in init by {
          forall i | 0 <= i < |init| ensures init[i] != k {
            assert init[i] == ks[i];
          }
        }
      }
    }
  }

  /** The groups partition the manual documents: their sizes add up to the manual count. */
  lemma {:induction false} GroupsPartitionManual(docs: seq<Doc>)
    ensures GroupSizes(docs, KeyOrder(docs)) == ManualCount(docs)
  {
    if docs != [] {
      var init := docs[..|docs| - 1];
      var d := docs[|docs| - 1];
      GroupsPartitionManual(init);
      assert docs == init + [d];
      var order := KeyOrder(init);
      KeyOrderMembers(init);
      GroupSizesStep(init, d, order);
      if d.data.isManual {
        CountDistinct(order, KeyOf(d));
        if KeyOf(d) !in order {
          assert KeyOrder(docs) == order + [KeyOf(d)];
          assert (order + [KeyOf(d)])[..|order|] == order;
          assert Members(init, KeyOf(d)) == [];
        }
      }
    }
  }

  /**
   * `deleted` is the sum over the groups of (size - 1), and with `kept` (one
   * per group) it accounts for every manual document.
   */
  lemma DeletedCount(docs: seq<Doc>)
    requires DistinctIds(docs)
    ensures |DeletedIds(docs)| + |KeyOrder(docs)| == GroupSizes(docs, KeyOrder(docs))
    ensures |DeletedIds(docs)| + |KeyOrder(docs)| == ManualCount(docs)
  {
    KeyOrderMembers(docs);
    DeletedFromLength(docs, KeyOrder(docs));
    GroupsPartitionManual(docs);
  }

  // ---------------------------------------------------------------------------
  // Idempotence

  lemma {:induction false} DeletedFromSingletons(docs: seq<Doc>, ks: seq<GroupKey>)
    requires forall k :: |Members(docs, k)| <= 1
    ensures DeletedFrom(docs, ks) == []
  {
    if ks != [] {
      DeletedFromSingletons(docs, ks[..|ks| - 1]);
    }
  }

  /**
   * Running the cleanup again on what the first run leaves in the store
   * deletes nothing: every group is then down to one member.
   */
  lemma CleanupIdempotent(docs: seq<Doc>)
    requires DistinctIds(docs)
    ensures DeletedIds(Without(docs, DeletedIds(docs))) == []
  {
    var del := DeletedIds(docs);
    var rest := Without(docs, del);
    KeyOrderMembers(docs);
    forall k ensures |Members(rest, k)| <= 1 {
      MembersWithout(docs, del, k);
      if k in KeyOrder(docs) {
        GroupSurvivor(docs, k);
      } else {
        assert Members(docs, k) == [];
      }
    }
    DeletedFromSingletons(rest, KeyOrder(rest));
  }

  // ---------------------------------------------------------------------------
  // The group key and the selection rule

  /**
   * Two records share a group exactly when they name the same shift and
   * employee and their roles agree up to case.
   */
  lemma RoleCaseIgnored(d: Doc, e: Doc)
    ensures KeyOf(d) == KeyOf(e) <==>
      && d.data.shiftId == e.data.shiftId
      && d.data.employeeId == e.data.employeeId
      && Lower(d.data.role.GetOr("")) == Lower(e.data.role.GetOr(""))
  {
    var a, b := d.data.role.GetOr(""), e.data.role.GetOr("");
    UpperOfLower(a);
    UpperOfLower(b);
    LowerOfUpper(a);
    LowerOfUpper(b);
  }

  /**
   * The selection order on a concrete group: the 90-minute spans beat the
   * 60-minute one, the one starting at 480 beats the one at 540, and of the
   * two identical ones the first stays.
   */
  lemma TieBreakExample()
    ensures Winner([Extent(90, 540), Extent(60, 420), Extent(90, 480), Extent(90, 480)]) == 2
  {
  }

  // ---------------------------------------------------------------------------
  // Time parsing

  /** Lower-case `H:MM` or `HH:MM`, optional white space, `am`/`pm` is read by the clock rule. */
  lemma TimeToMinutesOfClock(hs: string, ms: string, ws: string, p: Meridiem)
    requires 1 <= |hs| <= 2 && AllDigits(hs)
    requires |ms| == 2 && AllDigits(ms)
    requires AllSpace(ws)
    ensures TimeToMinutes(hs + ":" + ms + ws + PeriodText(p))
         == Minutes(ClockMatch(DigitsValue(hs), DigitsValue(ms), p))
  {
    var s := hs + ":" + ms + ws + PeriodText(p);
    assert s[0] == hs[0] && s[|s| - 1] == 'm';
    TrimNoSpace(s);
    forall i | 0 <= i < |s| ensures !('A' <= s[i] <= 'Z') {
      if i < |hs| {
        assert s[i] == hs[i];
      } else if |hs| + 3 <= i < |s| - 2 {
        assert s[i] == ws[i - |hs| - 3];
      } else if |hs| < i < |hs| + 3 {
        assert s[i] == ms[i - |hs| - 1];
      }
    }
    LowerFixed(s);
    MatchClockOfShape(hs, ms, ws, p);
  }

  /** An afternoon reading. */
  lemma TimeToMinutesAfternoon()
    ensures TimeToMinutes("2:30 pm") == 870
  {
    ClockExample("2", "30", " ", Pm, "2:30 pm");
  }

  /** The hour is not range-checked: "13:00 pm" is 25 hours. */
  lemma TimeToMinutesUnchecked()
    ensures TimeToMinutes("13:00 pm") == 1500
  {
    ClockExample("13", "00", " ", Pm, "13:00 pm");
  }

  /** Midnight. */
  lemma TimeToMinutesMidnight()
    ensures TimeToMinutes("12:00 am") == 0
  {
    ClockExample("12", "00", " ", Am, "12:00 am");
  }

  /** Half past noon. */
  lemma TimeToMinutesNoon()
    ensures TimeToMinutes("12:30 pm") == 750
  {
    ClockExample("12", "30", " ", Pm, "12:30 pm");
  }

  /** A morning reading. */
  lemma TimeToMinutesMorning()
    ensures TimeToMinutes("9:00 am") == 540
  {
    ClockExample("9", "00", " ", Am, "9:00 am");
  }

  /** The white space before the meridiem may be absent: the same reading as "9:00 am". */
  lemma TimeToMinutesNoSpace()
    ensures TimeToMinutes("9:00am") == 540
  {
    ClockExample("9", "00", "", Am, "9:00am");
  }

  /** A clock reading `t`, given piece by piece, is read by the clock rule. */
  lemma ClockExample(hs: string, ms: string, ws: string, p: Meridiem, t: string)
    requires 1 <= |hs| <= 2 && AllDigits(hs)
    requires |ms| == 2 && AllDigits(ms)
    requires AllSpace(ws)
    requires |t| == |hs| + |ws| + 5
    requires t[..|hs|] == hs && t[|hs|] == ':' && t[|hs| + 1..|hs| + 3] == ms
    requires t[|hs| + 3..|t| - 2] == ws && t[|t| - 2..] == PeriodText(p)
    ensures TimeToMinutes(t) == Minutes(ClockMatch(DigitsValue(hs), DigitsValue(ms), p))
  {
    ClockText(hs, ms, ws, p, t);
    TimeToMinutesOfClock(hs, ms, ws, p);
  }

  /** A string given piece by piece is the concatenation of its pieces. */
  lemma ClockText(hs: string, ms: string, ws: string, p: Meridiem, t: string)
    requires |hs| >= 1 && |ms| == 2
    requires |t| == |hs| + |ws| + 5
    requires t[..|hs|] == hs && t[|hs|] == ':' && t[|hs| + 1..|hs| + 3] == ms
    requires t[|hs| + 3..|t| - 2] == ws && t[|t| - 2..] == PeriodText(p)
    ensures t == hs + ":" + ms + ws + PeriodText(p)
  {
    var s := hs + ":" + ms + ws + PeriodText(p);
    ClockSlices(hs, ms, ws, p);
    forall j | 0 <= j < |t| ensures t[j] == s[j] {
      var a, z := |hs|, |t| - 2;
      if j < a {
        assert t[j] == t[..a][j] && s[j] == s[..a][j];
      } else if a < j < a + 3 {
        assert t[j] == t[a + 1..a + 3][j - a - 1] && s[j] == s[a + 1..a + 3][j - a - 1];
      } else if a + 3 <= j < z {
        assert t[j] == t[a + 3..z][j - a - 3] && s[j] == s[a + 3..z][j - a - 3];
      } else if z <= j {
        assert t[j] == t[z..][j - z] && s[j] == s[z..][j - z];
      }
    }
  }

  /** Text that is not a clock reading counts as midnight. */
  lemma TimeToMinutesMalformed()
    ensures TimeToMinutes("") == 0
    ensures TimeToMinutes("9:00") == 0
    ensures TimeToMinutes("9.00 am") == 0
    ensures TimeToMinutes("123:00 am") == 0
  {
    TrimNoSpace("9:00");
    LowerFixed("9:00");
    TrimNoSpace("9.00 am");
    LowerFixed("9.00 am");
    assert !AllDigits("9.00 am"[..2]) by { assert "9.00 am"[..2][1] == '.'; }
    TrimNoSpace("123:00 am");
    LowerFixed("123:00 am");
    assert "123:00 am"[1] != ':' && "123:00 am"[2] != ':';
  }
}

/**
 * How the wrapping rewrite groups the operations of one block, stated on
 * the sequence of operation ids alone: every maximal run of legal
 * operations that is followed by an illegal operation becomes one group;
 * every other operation stays where it is.
 */
module WrapRuns {
  import opened Ir

  /** A position of the rewritten block: an operation left in place, or a run moved into a new async.execute. */
  datatype Slot = Keep(op: OpId) | Group(run: seq<OpId>)

  /** The length of the longest prefix of `s` made of legal operations. */
  function LegalPrefix(s: seq<OpId>, legal: set<OpId>): (k: nat)
    ensures k <= |s|
    ensures forall j :: 0 <= j < k ==> s[j] in legal
    ensures k < |s| ==> s[k] !in legal
  {
    if s == [] || s[0] !in legal then 0 else 1 + LegalPrefix(s[1..], legal)
  }

  function KeepAll(s: seq<OpId>): (r: seq<Slot>)
    ensures |r| == |s| && forall j :: 0 <= j < |s| ==> r[j] == Keep(s[j])
  {
    seq(|s|, j requires 0 <= j < |s| => Keep(s[j]))
  }

  /** The slots of block `s` after wrapping, defined run by run from the front. */
  function Grouped(s: seq<OpId>, legal: set<OpId>): seq<Slot>
    decreases |s|
  {
    if s == [] then []
    else
      var k := LegalPrefix(s, legal);
      if k == |s| then KeepAll(s)
      else if k == 0 then [Keep(s[0])] + Grouped(s[1..], legal)
      else [Group(s[..k]), Keep(s[k])] + Grouped(s[k + 1..], legal)
  }

  /** The operations of `slots` in order, each group replaced by its run. */
  function Flatten(slots: seq<Slot>): seq<OpId> {
    if slots == [] then []
    else (match slots[0] case Keep(o) => [o] case Group(run) => run) + Flatten(slots[1..])
  }

  lemma {:induction false} FlattenAppend(a: seq<Slot>, b: seq<Slot>)
    ensures Flatten(a + b) == Flatten(a) + Flatten(b)
  {
    if a == [] {
      assert a + b == b;
    } else {
      assert (a + b)[1..] == a[1..] + b;
      FlattenAppend(a[1..], b);
    }
  }

  lemma {:induction false} FlattenKeepAll(s: seq<OpId>)
    ensures Flatten(KeepAll(s)) == s
  {
    if s != [] {
      assert KeepAll(s)[1..] == KeepAll(s[1..]);
      FlattenKeepAll(s[1..]);
    }
  }

  /** Replacing every group by its run gives back the original block. */
  lemma {:induction false} FlattenGrouped(s: seq<OpId>, legal: set<OpId>)
    ensures Flatten(Grouped(s, legal)) == s
    decreases |s|
  {
    if s != [] {
      if LegalPrefix(s, legal) == |s| {
        FlattenKeepAll(s);
      } else {
        var m := Step(s, legal);
        GroupedUnfold(s, legal);
        FlattenGrouped(s[m..], legal);
        FlattenHead(s, legal);
        FlattenJoin(s, m, Head(s, legal), Grouped(s[m..], legal));
      }
    }
  }

  lemma {:induction false} FlattenJoin(s: seq<OpId>, m: nat, h: seq<Slot>, t: seq<Slot>)
    requires m <= |s| && Flatten(h) == s[..m] && Flatten(t) == s[m..]
    ensures Flatten(h + t) == s
  {
    FlattenAppend(h, t);
    assert s == s[..m] + s[m..];
  }

  /** The first slots give back the operations they consume. */
  lemma {:induction false} FlattenHead(s: seq<OpId>, legal: set<OpId>)
    requires LegalPrefix(s, legal) < |s|
    ensures Flatten(Head(s, legal)) == s[..Step(s, legal)]
  {
    var k := LegalPrefix(s, legal);
    assert Flatten([Keep(s[k])]) == [s[k]];
    if k > 0 {
      assert [Group(s[..k]), Keep(s[k])][1..] == [Keep(s[k])];
      assert s[..k + 1] == s[..k] + [s[k]];
    }
  }

  /**
   * Every group is a non-empty run of legal operations, immediately followed
   * by an illegal operation left in place, and immediately preceded by
   * nothing or by an illegal operation left in place (the run is maximal).
   */
  ghost predicate GroupsMaximal(slots: seq<Slot>, legal: set<OpId>) {
    forall j :: 0 <= j < |slots| && slots[j].Group? ==>
      slots[j].run != [] && (forall o :: o in slots[j].run ==> o in legal)
      && j + 1 < |slots| && slots[j + 1].Keep? && slots[j + 1].op !in legal
      && (j > 0 ==> slots[j - 1].Keep? && slots[j - 1].op !in legal)
  }

  /**
   * A legal operation left in place belongs to the trailing run: every slot
   * from it to the end keeps a legal operation in place.
   */
  ghost predicate LegalKeptOnlyAtEnd(slots: seq<Slot>, legal: set<OpId>) {
    forall j, i :: 0 <= j <= i < |slots| && slots[j].Keep? && slots[j].op in legal ==>
      slots[i].Keep? && slots[i].op in legal
  }

  /** The grouping has the shape the rewrite promises. */
  lemma {:induction false} GroupedShape(s: seq<OpId>, legal: set<OpId>)
    ensures GroupsMaximal(Grouped(s, legal), legal)
    ensures LegalKeptOnlyAtEnd(Grouped(s, legal), legal)
    decreases |s|
  {
    if s != [] {
      if LegalPrefix(s, legal) == |s| {
        KeepAllShape(s, legal);
      } else {
        var m := Step(s, legal);
        GroupedUnfold(s, legal);
        GroupedShape(s[m..], legal);
        HeadShape(s, legal);
        MaximalAppend(Head(s, legal), Grouped(s[m..], legal), legal);
        KeptAppend(Head(s, legal), Grouped(s[m..], legal), legal);
      }
    }
  }

  /** A block of legal operations only is kept in place, which has the promised shape. */
  lemma {:induction false} KeepAllShape(s: seq<OpId>, legal: set<OpId>)
    requires s != [] && LegalPrefix(s, legal) == |s|
    ensures GroupsMaximal(Grouped(s, legal), legal)
    ensures LegalKeptOnlyAtEnd(Grouped(s, legal), legal)
  {
    assert Grouped(s, legal) == KeepAll(s);
  }

  /** Every operation the first slots keep in place is illegal, the last of them included. */
  predicate HeadClosed(h: seq<Slot>, legal: set<OpId>) {
    && h != [] && h[|h| - 1].Keep? && h[|h| - 1].op !in legal
    && forall j :: 0 <= j < |h| && h[j].Keep? ==> h[j].op !in legal
  }

  lemma {:induction false} HeadShape(s: seq<OpId>, legal: set<OpId>)
    requires LegalPrefix(s, legal) < |s|
    ensures GroupsMaximal(Head(s, legal), legal) && HeadClosed(Head(s, legal), legal)
  {
    var k := LegalPrefix(s, legal);
    if k > 0 {
      forall o | o in s[..k]
        ensures o in legal
      {
      }
    }
  }

  /** Groups stay maximal when slots closed by an illegal operation are put in front. */
  lemma {:induction false} MaximalAppend(h: seq<Slot>, t: seq<Slot>, legal: set<OpId>)
    requires GroupsMaximal(h, legal) && HeadClosed(h, legal) && GroupsMaximal(t, legal)
    ensures GroupsMaximal(h + t, legal)
  {
    var all := h + t;
    forall j | 0 <= j < |all| && all[j].Group?
      ensures all[j].run != [] && (forall o :: o in all[j].run ==> o in legal)
      ensures j + 1 < |all| && all[j + 1].Keep? && all[j + 1].op !in legal
      ensures j > 0 ==> all[j - 1].Keep? && all[j - 1].op !in legal
    {
      if j < |h| {
        assert all[j] == h[j] && all[j + 1] == h[j + 1];
        if j > 0 {
          assert all[j - 1] == h[j - 1];
        }
      } else {
        assert all[j] == t[j - |h|];
        if j == |h| {
          assert all[j - 1] == h[|h| - 1];
        } else {
          assert all[j - 1] == t[j - 1 - |h|];
        }
      }
    }
  }

  /** Legal operations are still kept only at the end when slots keeping none are put in front. */
  lemma {:induction false} KeptAppend(h: seq<Slot>, t: seq<Slot>, legal: set<OpId>)
    requires HeadClosed(h, legal) && LegalKeptOnlyAtEnd(t, legal)
    ensures LegalKeptOnlyAtEnd(h + t, legal)
  {
    var all := h + t;
    forall j, i | 0 <= j <= i < |all| && all[j].Keep? && all[j].op in legal
      ensures all[i].Keep? && all[i].op in legal
    {
    }
  }

  /** Some slot is a group. */
  predicate HasGroup(slots: seq<Slot>) {
    exists j :: 0 <= j < |slots| && slots[j].Group?
  }

  /** Some legal operation is immediately followed by an illegal one. */
  predicate HasStep(s: seq<OpId>, legal: set<OpId>) {
    exists i :: 0 <= i < |s| - 1 && s[i] in legal && s[i + 1] !in legal
  }

  lemma {:induction false} HasGroupAppend(a: seq<Slot>, b: seq<Slot>)
    ensures HasGroup(a + b) <==> HasGroup(a) || HasGroup(b)
  {
    if HasGroup(a + b) {
      var j :| 0 <= j < |a + b| && (a + b)[j].Group?;
      if j >= |a| {
        assert b[j - |a|].Group?;
      }
    }
    if HasGroup(a) {
      var j :| 0 <= j < |a| && a[j].Group?;
      assert (a + b)[j].Group?;
    }
    if HasGroup(b) {
      var j :| 0 <= j < |b| && b[j].Group?;
      assert (a + b)[j + |a|].Group?;
    }
  }

  /** Some group is created exactly when some legal operation is immediately followed by an illegal one. */
  lemma {:induction false} GroupedChanges(s: seq<OpId>, legal: set<OpId>)
    ensures HasGroup(Grouped(s, legal)) <==> HasStep(s, legal)
    decreases |s|
  {
    if s != [] {
      var k := LegalPrefix(s, legal);
      if k == |s| {
        NoStepWhenLegal(s, legal);
        assert Grouped(s, legal) == KeepAll(s);
      } else {
        var m := Step(s, legal);
        GroupedUnfold(s, legal);
        HasGroupAppend(Head(s, legal), Grouped(s[m..], legal));
        if k == 0 {
          GroupedChanges(s[1..], legal);
          assert !HasGroup(Head(s, legal));
          StepAfterIllegal(s, legal);
        } else {
          assert Head(s, legal)[0].Group?;
          assert s[k - 1] in legal && s[k] !in legal;
        }
      }
    }
  }

  lemma {:induction false} NoStepWhenLegal(s: seq<OpId>, legal: set<OpId>)
    requires LegalPrefix(s, legal) == |s|
    ensures !HasStep(s, legal)
  {
    forall i | 0 <= i < |s|
      ensures s[i] in legal
    {
    }
  }

  /** Behind an illegal first operation, the steps are those of the rest. */
  lemma {:induction false} StepAfterIllegal(s: seq<OpId>, legal: set<OpId>)
    requires s != [] && s[0] !in legal
    ensures HasStep(s, legal) <==> HasStep(s[1..], legal)
  {
    if HasStep(s, legal) {
      var i :| 0 <= i < |s| - 1 && s[i] in legal && s[i + 1] !in legal;
      assert s[1..][i - 1] == s[i] && s[1..][i] == s[i + 1];
    }
    if HasStep(s[1..], legal) {
      var i :| 0 <= i < |s[1..]| - 1 && s[1..][i] in legal && s[1..][i + 1] !in legal;
      assert s[i + 1] in legal && s[i + 2] !in legal;
    }
  }

  /**
   * A block may be grouped in two parts wherever the first part ends with an
   * illegal operation: no run crosses that point.
   */
  lemma {:induction false} GroupedSplit(s: seq<OpId>, legal: set<OpId>, d: nat)
    requires d <= |s| && (d == 0 || s[d - 1] !in legal)
    ensures Grouped(s, legal) == Grouped(s[..d], legal) + Grouped(s[d..], legal)
    decreases |s|
  {
    if d == 0 {
      assert s[..0] == [] && s[0..] == s;
    } else {
      SplitPointAfterFirstSlots(s, legal, d);
      var m := Step(s, legal);
      assert d - m == 0 || s[m..][d - m - 1] == s[d - 1];
      var t := s[m..];
      GroupedSplit(t, legal, d - m);
      SliceOfDrop(s, m, d);
      assert Grouped(t[..d - m], legal) == Grouped(s[m..d], legal);
      assert Grouped(t[d - m..], legal) == Grouped(s[d..], legal);
      GroupedSplitCombine(s, legal, d);
    }
  }

  lemma {:induction false} SliceOfDrop(s: seq<OpId>, m: nat, d: nat)
    requires m <= d <= |s|
    ensures s[m..][..d - m] == s[m..d] && s[m..][d - m..] == s[d..]
  {
  }

  lemma {:induction false} SplitPointAfterFirstSlots(s: seq<OpId>, legal: set<OpId>, d: nat)
    requires 0 < d <= |s| && s[d - 1] !in legal
    ensures LegalPrefix(s, legal) < d && Step(s, legal) <= d
  {
  }

  lemma {:induction false} GroupedSplitCombine(s: seq<OpId>, legal: set<OpId>, d: nat)
    requires 0 < d <= |s| && LegalPrefix(s, legal) < d && Step(s, legal) <= d
    requires Grouped(s[Step(s, legal)..], legal) == Grouped(s[Step(s, legal)..d], legal) + Grouped(s[d..], legal)
    ensures Grouped(s, legal) == Grouped(s[..d], legal) + Grouped(s[d..], legal)
  {
    var k := LegalPrefix(s, legal);
    var p := s[..d];
    var m := Step(s, legal);
    LegalPrefixOfPrefix(s, legal, d);
    assert Step(p, legal) == m;
    assert Head(p, legal) == Head(s, legal) by {
      assert p[..k] == s[..k];
    }
    assert p[m..] == s[m..d];
    GroupedUnfold(s, legal);
    GroupedUnfold(p, legal);
    Regroup(Head(s, legal), Grouped(s[m..d], legal), Grouped(s[d..], legal), Grouped(s, legal), Grouped(p, legal));
  }

  lemma {:induction false} Regroup(h: seq<Slot>, a: seq<Slot>, b: seq<Slot>, whole: seq<Slot>, front: seq<Slot>)
    requires whole == h + (a + b) && front == h + a
    ensures whole == front + b
  {
  }

  /** How many operations the first slots of Grouped(s) consume. */
  function Step(s: seq<OpId>, legal: set<OpId>): nat {
    var k := LegalPrefix(s, legal);
    if k == 0 then 1 else k + 1
  }

  /** The first slots of Grouped(s) when s has an illegal operation. */
  function Head(s: seq<OpId>, legal: set<OpId>): seq<Slot>
    requires LegalPrefix(s, legal) < |s|
  {
    var k := LegalPrefix(s, legal);
    if k == 0 then [Keep(s[0])] else [Group(s[..k]), Keep(s[k])]
  }

  lemma {:induction false} GroupedUnfold(s: seq<OpId>, legal: set<OpId>)
    requires LegalPrefix(s, legal) < |s|
    ensures Step(s, legal) <= |s|
    ensures Grouped(s, legal) == Head(s, legal) + Grouped(s[Step(s, legal)..], legal)
  {
  }

  lemma {:induction false} LegalPrefixOfPrefix(s: seq<OpId>, legal: set<OpId>, d: nat)
    requires d <= |s| && LegalPrefix(s, legal) < d
    ensures LegalPrefix(s[..d], legal) == LegalPrefix(s, legal)
    decreases d
  {
    if s[0] in legal {
      assert s[..d][1..] == s[1..][..d - 1];
      LegalPrefixOfPrefix(s[1..], legal, d - 1);
    }
  }

  /** A run of legal operations that nothing illegal follows is left entirely in place. */
  lemma {:induction false} GroupedAllLegal(s: seq<OpId>, legal: set<OpId>)
    requires forall j :: 0 <= j < |s| ==> s[j] in legal
    ensures Grouped(s, legal) == KeepAll(s)
  {
    if s != [] {
      LegalPrefixAll(s, legal);
    }
  }

  lemma {:induction false} LegalPrefixAll(s: seq<OpId>, legal: set<OpId>)
    requires forall j :: 0 <= j < |s| ==> s[j] in legal
    ensures LegalPrefix(s, legal) == |s|
  {
    if s != [] {
      LegalPrefixAll(s[1..], legal);
    }
  }

  /** A legal run closed by an illegal operation forms one group followed by that operation. */
  lemma {:induction false} GroupedClosedRun(s: seq<OpId>, legal: set<OpId>)
    requires s != [] && s[|s| - 1] !in legal
    requires forall j :: 0 <= j < |s| - 1 ==> s[j] in legal
    ensures Grouped(s, legal) == if |s| == 1 then [Keep(s[0])] else [Group(s[..|s| - 1]), Keep(s[|s| - 1])]
  {
    var n := |s| - 1;
    assert LegalPrefix(s, legal) == n by {
      if n > 0 {
        LegalPrefixAll(s[..n], legal);
        LegalPrefixOfPrefix2(s, legal, n);
      }
    }
    assert s[n + 1..] == [];
    if n == 0 {
      assert s[1..] == [];
    }
  }

  lemma {:induction false} LegalPrefixOfPrefix2(s: seq<OpId>, legal: set<OpId>, n: nat)
    requires n < |s| && s[n] !in legal
    requires forall j :: 0 <= j < n ==> s[j] in legal
    ensures LegalPrefix(s, legal) == n
    decreases n
  {
    if n > 0 {
      LegalPrefixOfPrefix2(s[1..], legal, n - 1);
    }
  }

  /** An illustration: the trailing legal operation d is not wrapped, as it is followed by no illegal operation. */
  lemma {:induction false} TrailingRunNotWrapped(a: OpId, b: OpId, c: OpId, d: OpId)
    requires a != c && b != c && d != c
    ensures Grouped([a, b, c, d], {a, b, d}) == [Group([a, b]), Keep(c), Keep(d)]
  {
    var s := [a, b, c, d];
    var legal := {a, b, d};
    assert s[1..] == [b, c, d] && [b, c, d][1..] == [c, d];
    assert LegalPrefix([c, d], legal) == 0;
    assert LegalPrefix([b, c, d], legal) == 1;
    assert LegalPrefix(s, legal) == 2;
    assert s[..2] == [a, b] && s[3..] == [d];
    assert Grouped([d], legal) == [Keep(d)];
    assert Grouped(s, legal) == [Group([a, b]), Keep(c)] + [Keep(d)];
  }
}

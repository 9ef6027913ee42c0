/** The client's side: folding published changes into one view. */
module ClaudeProtocol {
  import opened Wrappers
  import opened ClaudeState
  import opened ClaudeStore

  datatype Change = Change(revision: nat, state: View)

  /** `applyClaudeSessionChange`; an invalid change is an error. */
  function ApplyChange(view: View, change: Change): Result<View, string> {
    if change.revision != change.state.revision || change.revision > MAX_SAFE_INTEGER then Err("Invalid Claude view change")
    else Ok(if change.revision > view.revision then change.state else view)
  }

  function ChangeOf(p: Publication): Change {
    Change(p.revision, p.view)
  }

  predicate IsChange(sent: Sent) {
    sent.part == |sent.publication.events|
  }

  /** A client that receives everything sent so far, in order, repeats included. */
  function Fold(view: View, sent: seq<Sent>): Result<View, string> {
    if sent == [] then Ok(view)
    else
      var last := sent[|sent| - 1];
      match Fold(view, sent[..|sent| - 1])
      case Err(e) => Err(e)
      case Ok(v) => if IsChange(last) then ApplyChange(v, ChangeOf(last.publication)) else Ok(v)
  }

  /** `view` is the newest of `initial` and the changes in `sent`. */
  ghost predicate Newest(initial: View, sent: seq<Sent>, view: View) {
    && (view == initial || exists k :: 0 <= k < |sent| && IsChange(sent[k]) && view == sent[k].publication.view)
    && initial.revision <= view.revision
    && forall k :: 0 <= k < |sent| && IsChange(sent[k]) ==> sent[k].publication.revision <= view.revision
  }

  lemma {:induction false} FoldIsNewest(initial: View, sent: seq<Sent>)
    requires forall k :: 0 <= k < |sent| ==>
               sent[k].publication.view.revision == sent[k].publication.revision <= MAX_SAFE_INTEGER
    ensures Fold(initial, sent).Ok? && Newest(initial, sent, Fold(initial, sent).value)
  {
    if sent != [] {
      var shorter := sent[..|sent| - 1];
      FoldIsNewest(initial, shorter);
      var v := Fold(initial, shorter).value;
      if v != initial {
        var k :| 0 <= k < |shorter| && IsChange(shorter[k]) && v == shorter[k].publication.view;
        assert sent[k] == shorter[k];
      }
      forall k | 0 <= k < |sent| && IsChange(sent[k])
        ensures sent[k].publication.revision <= Fold(initial, sent).value.revision
      {
        if k < |shorter| { assert sent[k] == shorter[k]; }
      }
    }
  }

  /**
   Over every run with failed and ambiguous writes, crashes, restarts and resends, a
   client that folds everything it was sent never rejects a change and ends at the
   highest revision sent; the view it holds is the only one ever sent at that revision.
   */
  lemma ClientEndsAtHighestRevision(actions: seq<StoreAction>, initial: View)
    ensures var sent := After(actions).sent;
            var folded := Fold(initial, sent);
            && folded.Ok? && Newest(initial, sent, folded.value)
            && forall k :: 0 <= k < |sent| && IsChange(sent[k]) && sent[k].publication.revision == folded.value.revision > initial.revision
                 ==> folded.value == sent[k].publication.view
  {
    RunInv(actions);
    var sent := After(actions).sent;
    forall k | 0 <= k < |sent|
      ensures sent[k].publication.view.revision == sent[k].publication.revision <= MAX_SAFE_INTEGER
    {
      assert sent[k].publication in After(actions).history;
    }
    FoldIsNewest(initial, sent);
  }

  /**
   Two clients that start from the same view and see the same set of changes, in any order
   and with any repetition, end with the same view.
   */
  lemma OrderAndRepetitionAreHarmless(actions: seq<StoreAction>, initial: View, one: seq<Sent>, other: seq<Sent>)
    requires forall x :: x in one ==> x in After(actions).sent
    requires forall x :: x in one <==> x in other
    ensures Fold(initial, one).Ok? && Fold(initial, one) == Fold(initial, other)
  {
    RunInv(actions);
    forall x | x in After(actions).sent
      ensures x.publication in After(actions).history
      ensures x.publication.view.revision == x.publication.revision <= MAX_SAFE_INTEGER
    {
    }
    assert forall k :: 0 <= k < |one| ==> one[k] in After(actions).sent;
    assert forall k :: 0 <= k < |other| ==> other[k] in one;
    FoldIsNewest(initial, one);
    FoldIsNewest(initial, other);
    var v, w := Fold(initial, one).value, Fold(initial, other).value;
    NewestBounds(initial, one, other, v, w);
    NewestBounds(initial, other, one, w, v);
    assert v.revision == w.revision;
    if v != initial && w != initial {
      var i :| 0 <= i < |one| && IsChange(one[i]) && v == one[i].publication.view;
      var j :| 0 <= j < |other| && IsChange(other[j]) && w == other[j].publication.view;
      assert one[i].publication == other[j].publication;
    } else if v != initial {
      Unchanged(initial, one);
    } else if w != initial {
      Unchanged(initial, other);
    }
  }

  lemma NewestBounds(initial: View, one: seq<Sent>, other: seq<Sent>, v: View, w: View)
    requires Newest(initial, one, v) && Newest(initial, other, w)
    requires forall x :: x in one ==> x in other
    requires forall k :: 0 <= k < |one| ==> one[k].publication.view.revision == one[k].publication.revision
    ensures v.revision <= w.revision
  {
    if v != initial {
      var i :| 0 <= i < |one| && IsChange(one[i]) && v == one[i].publication.view;
      assert one[i] in other;
    }
  }

  /** A fold that ends at the starting revision never replaced the starting view. */
  lemma {:induction false} Unchanged(initial: View, sent: seq<Sent>)
    requires Fold(initial, sent).Ok?
    ensures Fold(initial, sent).value.revision >= initial.revision
    ensures Fold(initial, sent).value.revision == initial.revision ==> Fold(initial, sent).value == initial
  {
    if sent != [] {
      Unchanged(initial, sent[..|sent| - 1]);
    }
  }
}

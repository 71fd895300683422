/**
 * The toast notifications: a list held in state, appended to by `toast` and
 * filtered by id when a toast is closed or its display time runs out.
 * Toast ids come from `Math.random`; here they are a parameter.
 */
module Toasts {
  import opened Base
  import opened Stats

  datatype Variant = Default | Destructive | Success

  datatype Toast = Toast(id: string, title: Option<string>, description: Option<string>, variant: Option<Variant>)

  function IdIsNot(id: string): Toast -> bool {
    (t: Toast) => t.id != id
  }

  /** `prev.filter((t) => t.id !== id)`. */
  function RemoveById(toasts: seq<Toast>, id: string): (r: seq<Toast>)
    ensures forall t :: t in r <==> t in toasts && t.id != id
    ensures IsSubsequence(r, toasts)
    ensures |r| == Count(toasts, IdIsNot(id))
  {
    FilterIsSubsequence(toasts, IdIsNot(id));
    Filter(toasts, IdIsNot(id))
  }

  /** Every toast with another id stays as many times as it was listed; none with this id stays. */
  lemma RemoveKeepsMultiplicity(toasts: seq<Toast>, id: string, t: Toast)
    ensures multiset(RemoveById(toasts, id))[t] == if t.id != id then multiset(toasts)[t] else 0
  {
    FilterMultiset(toasts, IdIsNot(id), t);
  }

  predicate HasId(toasts: seq<Toast>, id: string) {
    exists k | 0 <= k < |toasts| :: toasts[k].id == id
  }

  /** Removing an id that no toast has changes nothing. */
  lemma RemoveAbsent(toasts: seq<Toast>, id: string)
    requires !HasId(toasts, id)
    ensures RemoveById(toasts, id) == toasts
  {
    FilterAll(toasts, IdIsNot(id));
  }

  /** Removing the same id twice is removing it once. */
  lemma RemoveTwice(toasts: seq<Toast>, id: string)
    ensures RemoveById(RemoveById(toasts, id), id) == RemoveById(toasts, id)
  {
    var r := RemoveById(toasts, id);
    forall k | 0 <= k < |r|
      ensures r[k].id != id
    {
      assert r[k] in r;
    }
    RemoveAbsent(r, id);
  }

  /** Removing a toast just shown, whose id no earlier toast has, restores the earlier list. */
  lemma ShowThenRemove(toasts: seq<Toast>, t: Toast)
    requires !HasId(toasts, t.id)
    ensures RemoveById(toasts + [t], t.id) == toasts
  {
    FilterAppend(toasts, [t], IdIsNot(t.id));
    RemoveAbsent(toasts, t.id);
    assert Filter([t], IdIsNot(t.id)) == [];
  }

  /** The list `useToast` holds. */
  class ToastList {
    var toasts: seq<Toast>

    constructor()
      ensures toasts == []
    {
      toasts := [];
    }

    /** `toast`: a new toast goes at the end; the ones before it are untouched. */
    method Show(id: string, title: Option<string>, description: Option<string>, variant: Option<Variant>)
      modifies this
      ensures toasts == old(toasts) + [Toast(id, title, description, variant)]
    {
      toasts := toasts + [Toast(id, title, description, variant)];
    }

    /** `removeToast`, and the removal the display timer schedules: every toast with that id goes, the rest keep their order. */
    method Remove(id: string)
      modifies this
      ensures toasts == RemoveById(old(toasts), id)
    {
      toasts := RemoveById(toasts, id);
    }
  }

  /** `ToastContainer`: nothing for no toasts, otherwise one close target per toast, in list order. */
  function Container(toasts: seq<Toast>): (r: Option<seq<string>>)
    ensures r.None? <==> toasts == []
    ensures r.Some? ==> |r.value| == |toasts| && forall k | 0 <= k < |toasts| :: r.value[k] == toasts[k].id
  {
    if |toasts| == 0 then None else Some(seq(|toasts|, k requires 0 <= k < |toasts| => toasts[k].id))
  }
}

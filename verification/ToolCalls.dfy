/**
 Assembly of tool calls from streamed fragments. A fragment names the index it belongs to; its id replaces
 the one before, its name and arguments are appended.
 */
module ToolCalls {
  import opened Common

  /** One entry of a `tool_calls` delta; absent or empty fields are None, an absent index is None. */
  datatype Fragment = Fragment(index: Option<nat>, id: Option<string>, name: Option<string>, arguments: Option<string>)

  datatype Slot = Slot(id: string, name: string, arguments: string)

  datatype ToolCall = ToolCall(id: string, name: string, arguments: string)

  const EMPTY := Slot("", "", "")

  function IndexOf(f: Fragment): nat {
    if f.index.Some? then f.index.value else 0
  }

  function Text(o: Option<string>): string {
    if o.Some? then o.value else ""
  }

  function Extend(s: Slot, f: Fragment): Slot {
    Slot(if f.id.Some? && f.id.value != "" then f.id.value else s.id, s.name + Text(f.name), s.arguments + Text(f.arguments))
  }

  // ---- what the slots should hold, from the whole list of fragments

  /** The fragments of index `i`, in order. */
  function Own(fragments: seq<Fragment>, i: nat): seq<Fragment> {
    if fragments == [] then []
    else
      var front, f := fragments[..|fragments| - 1], fragments[|fragments| - 1];
      Own(front, i) + if IndexOf(f) == i then [f] else []
  }

  /** The last non-empty id. */
  function LastId(fragments: seq<Fragment>): string {
    if fragments == [] then ""
    else
      var f := fragments[|fragments| - 1];
      if f.id.Some? && f.id.value != "" then f.id.value else LastId(fragments[..|fragments| - 1])
  }

  function Names(fragments: seq<Fragment>): string {
    if fragments == [] then "" else Names(fragments[..|fragments| - 1]) + Text(fragments[|fragments| - 1].name)
  }

  function Arguments(fragments: seq<Fragment>): string {
    if fragments == [] then "" else Arguments(fragments[..|fragments| - 1]) + Text(fragments[|fragments| - 1].arguments)
  }

  /** The fragments that name `i`, or that name no index when `i` is 0. */
  lemma {:induction false} OwnIsFilter(fragments: seq<Fragment>, i: nat)
    ensures Own(fragments, i) == Filter(fragments, (f: Fragment) => if f.index.Some? then f.index.value == i else i == 0)
    decreases |fragments|
  {
    if fragments != [] {
      OwnIsFilter(fragments[..|fragments| - 1], i);
    }
  }

  /** Name and arguments are the given ones one behind the other. */
  lemma {:induction false} PartsAreConcatenations(own: seq<Fragment>, names: seq<string>, arguments: seq<string>)
    requires |names| == |arguments| == |own|
    requires forall k :: 0 <= k < |own| ==> names[k] == if own[k].name.Some? then own[k].name.value else ""
    requires forall k :: 0 <= k < |own| ==> arguments[k] == if own[k].arguments.Some? then own[k].arguments.value else ""
    ensures Names(own) == Concat(names) && Arguments(own) == Concat(arguments)
    decreases |own|
  {
    if own != [] {
      var n := |own| - 1;
      PartsAreConcatenations(own[..n], names[..n], arguments[..n]);
    }
  }

  /** The id is the last one given that is not empty, and empty when none is. */
  lemma {:induction false} LastIdIsTheLastGiven(before: seq<Fragment>, f: Fragment, after: seq<Fragment>)
    requires forall g :: g in after ==> g.id.None? || g.id.value == ""
    ensures f.id.Some? && f.id.value != "" ==> LastId(before + [f] + after) == f.id.value
    ensures LastId(after) == ""
    decreases |after|
  {
    var all := before + [f] + after;
    if after == [] {
      assert all == before + [f];
    } else {
      var n := |after| - 1;
      assert all[..|all| - 1] == before + [f] + after[..n] && all[|all| - 1] == after[n];
      assert after[n] in after;
      LastIdIsTheLastGiven(before, f, after[..n]);
    }
  }

  function SlotOf(own: seq<Fragment>): Slot {
    Slot(LastId(own), Names(own), Arguments(own))
  }

  /** One more than the highest index. */
  function SlotCount(fragments: seq<Fragment>): nat {
    if fragments == [] then 0
    else Max(SlotCount(fragments[..|fragments| - 1]), IndexOf(fragments[|fragments| - 1]) + 1)
  }

  /** The slots after a list of fragments: each holds its own fragments only. */
  function Slots(fragments: seq<Fragment>): (slots: seq<Slot>) {
    seq(SlotCount(fragments), i requires 0 <= i < SlotCount(fragments) => SlotOf(Own(fragments, i)))
  }

  lemma ExtendOwn(own: seq<Fragment>, f: Fragment)
    ensures SlotOf(own + [f]) == Extend(SlotOf(own), f)
  {}

  lemma {:induction false} NoOwnBeyond(fragments: seq<Fragment>, i: nat)
    requires i >= SlotCount(fragments)
    ensures Own(fragments, i) == []
    decreases |fragments|
  {
    if fragments != [] {
      var front, f := fragments[..|fragments| - 1], fragments[|fragments| - 1];
      NoOwnBeyond(front, i);
      assert fragments == front + [f];
    }
  }

  lemma OwnAppends(fragments: seq<Fragment>, f: Fragment, i: nat)
    ensures Own(fragments + [f], i) == Own(fragments, i) + if IndexOf(f) == i then [f] else []
  {}

  lemma CountAppends(fragments: seq<Fragment>, f: Fragment)
    ensures SlotCount(fragments + [f]) == Max(SlotCount(fragments), IndexOf(f) + 1)
  {}

  /** One more fragment extends the slot of its index and no other. */
  lemma OwnSlotAppends(fragments: seq<Fragment>, f: Fragment, i: nat)
    ensures SlotOf(Own(fragments + [f], i)) ==
      var s := SlotOf(Own(fragments, i)); if IndexOf(f) == i then Extend(s, f) else s
    ensures i >= SlotCount(fragments) ==> SlotOf(Own(fragments, i)) == EMPTY
  {
    OwnAppends(fragments, f, i);
    if IndexOf(f) == i {
      ExtendOwn(Own(fragments, i), f);
    } else {
      assert Own(fragments, i) + [] == Own(fragments, i);
    }
    if i >= SlotCount(fragments) {
      NoOwnBeyond(fragments, i);
    }
  }

  /** Padding with empty slots up to the fragment's index, then extending that slot, keeps the slots right. */
  lemma SlotsAppend(fragments: seq<Fragment>, f: Fragment, padded: seq<Slot>)
    requires |padded| == SlotCount(fragments + [f])
    requires forall i :: 0 <= i < |padded| ==> padded[i] == if i < SlotCount(fragments) then Slots(fragments)[i] else EMPTY
    ensures IndexOf(f) < |padded|
    ensures padded[IndexOf(f) := Extend(padded[IndexOf(f)], f)] == Slots(fragments + [f])
  {
    CountAppends(fragments, f);
    var next := padded[IndexOf(f) := Extend(padded[IndexOf(f)], f)];
    forall i | 0 <= i < |next| ensures next[i] == Slots(fragments + [f])[i] {
      OwnSlotAppends(fragments, f, i);
    }
  }

  /** The fragments of one chunk folded into the slots so far. */
  method ApplyFragments(slots: seq<Slot>, calls: seq<Fragment>, ghost seen: seq<Fragment>) returns (partial: seq<Slot>)
    requires slots == Slots(seen)
    ensures partial == Slots(seen + calls)
  {
    partial := slots;
    assert seen + calls[..0] == seen;
    for k := 0 to |calls|
      invariant partial == Slots(seen + calls[..k])
    {
      var c := calls[k];
      var idx := IndexOf(c);
      ghost var before := seen + calls[..k];
      assert seen + calls[..k + 1] == before + [c];
      assert (before + [c])[..|before|] == before;
      ghost var start := partial;
      while |partial| <= idx
        invariant |start| <= |partial| <= Max(|start|, idx + 1)
        invariant partial[..|start|] == start
        invariant forall i :: |start| <= i < |partial| ==> partial[i] == EMPTY
      {
        partial := partial + [EMPTY];
      }
      assert forall i :: 0 <= i < |start| ==> partial[i] == partial[..|start|][i];
      SlotsAppend(before, c, partial);
      partial := partial[idx := Extend(partial[idx], c)];
    }
    assert calls[..|calls|] == calls;
  }

  // ---- the finished list

  function CallOf(i: nat, s: Slot): ToolCall {
    ToolCall(if s.id == "" then "call_" + Digits(i) else s.id, s.name, s.arguments)
  }

  /** The slots from index `i` on whose name is not empty, as calls. */
  function FinishFrom(slots: seq<Slot>, i: nat): seq<ToolCall>
    requires i <= |slots|
    decreases |slots| - i
  {
    if i == |slots| then []
    else (if slots[i].name == "" then [] else [CallOf(i, slots[i])]) + FinishFrom(slots, i + 1)
  }

  function Finish(slots: seq<Slot>): seq<ToolCall> {
    FinishFrom(slots, 0)
  }

  ghost predicate Ascending(indices: seq<nat>) {
    forall a, b :: 0 <= a < b < |indices| ==> indices[a] < indices[b]
  }

  /** The indices from `from` on whose slot has a name. */
  function Named(slots: seq<Slot>, from: nat): (indices: seq<nat>)
    requires from <= |slots|
    ensures Ascending(indices)
    ensures forall i :: i in indices ==> from <= i < |slots| && slots[i].name != ""
    ensures forall k :: 0 <= k < |indices| ==> from <= indices[k] < |slots|
    decreases |slots| - from
  {
    if from == |slots| then []
    else
      var rest := Named(slots, from + 1);
      if slots[from].name == "" then rest else [from] + rest
  }

  lemma {:induction false} NamedHasEvery(slots: seq<Slot>, from: nat, i: nat)
    requires from <= i < |slots| && slots[i].name != ""
    ensures i in Named(slots, from)
    decreases i - from
  {
    if from < i {
      NamedHasEvery(slots, from + 1, i);
    }
  }

  /** One call per listed index. */
  function CallsAt(slots: seq<Slot>, indices: seq<nat>): (calls: seq<ToolCall>)
    requires forall k :: 0 <= k < |indices| ==> indices[k] < |slots|
    ensures |calls| == |indices|
    ensures forall k :: 0 <= k < |indices| ==> calls[k] == CallOf(indices[k], slots[indices[k]])
  {
    seq(|indices|, k requires 0 <= k < |indices| => CallOf(indices[k], slots[indices[k]]))
  }

  lemma CallsAtOneMore(slots: seq<Slot>, i: nat, rest: seq<nat>)
    requires i < |slots| && forall k :: 0 <= k < |rest| ==> rest[k] < |slots|
    ensures CallsAt(slots, [i] + rest) == [CallOf(i, slots[i])] + CallsAt(slots, rest)
  {}

  lemma {:induction false} FinishFollowsNamed(slots: seq<Slot>, from: nat)
    requires from <= |slots|
    ensures FinishFrom(slots, from) == CallsAt(slots, Named(slots, from))
    decreases |slots| - from
  {
    if from < |slots| {
      FinishFollowsNamed(slots, from + 1);
      if slots[from].name != "" {
        CallsAtOneMore(slots, from, Named(slots, from + 1));
      }
    }
  }

  /**
   The finished list has one call per index whose fragments spell a name, by ascending index, holding the
   concatenation of that index's own fragments and its last non-empty id or a synthetic one.
   */
  lemma FinishListsNamedIndices(fragments: seq<Fragment>)
    ensures var indices := Named(Slots(fragments), 0);
            var calls := Finish(Slots(fragments));
            && Ascending(indices)
            && (forall i: nat :: i in indices <==> Names(Own(fragments, i)) != "")
            && |calls| == |indices|
            && forall k :: 0 <= k < |indices| ==>
                 var own := Own(fragments, indices[k]);
                 calls[k] == ToolCall(if LastId(own) == "" then "call_" + Digits(indices[k]) else LastId(own), Names(own), Arguments(own))
  {
    var slots := Slots(fragments);
    FinishFollowsNamed(slots, 0);
    forall i: nat | Names(Own(fragments, i)) != "" ensures i in Named(slots, 0) {
      if i >= SlotCount(fragments) {
        NoOwnBeyond(fragments, i);
      }
      NamedHasEvery(slots, 0, i);
    }
    forall k | 0 <= k < |Named(slots, 0)| ensures Named(slots, 0)[k] in Named(slots, 0) {}
  }

  /** Calls that never got an id get different ones. */
  lemma SyntheticIdsDiffer(i: nat, j: nat, s: Slot, t: Slot)
    requires i != j && s.id == "" && t.id == ""
    ensures CallOf(i, s).id != CallOf(j, t).id
  {
    if CallOf(i, s).id == CallOf(j, t).id {
      assert CallOf(i, s).id[5..] == Digits(i) && CallOf(j, t).id[5..] == Digits(j);
      DigitsInjective(i, j);
    }
  }

  /** A slot whose call is listed. */
  predicate IsNamed(slots: seq<Slot>, i: nat) {
    i < |slots| && slots[i].name != ""
  }

  ghost predicate CallIdsDiffer(slots: seq<Slot>) {
    forall i: nat, j: nat :: i != j && IsNamed(slots, i) && IsNamed(slots, j) ==> CallOf(i, slots[i]).id != CallOf(j, slots[j]).id
  }

  /** The given ids differ from each other, and none spells the synthetic id of a listed call without one. */
  ghost predicate GivenIdsDiffer(slots: seq<Slot>) {
    forall i: nat, j: nat :: i != j && IsNamed(slots, i) && IsNamed(slots, j) && slots[i].id != "" ==>
      slots[i].id != if slots[j].id == "" then "call_" + Digits(j) else slots[j].id
  }

  /** The listed calls all have different ids, so that results tie back to one call each, exactly when the given ids allow it. */
  lemma CallIdsDifferIffGivenOnesDo(slots: seq<Slot>)
    ensures CallIdsDiffer(slots) <==> GivenIdsDiffer(slots)
  {
    if GivenIdsDiffer(slots) {
      forall i: nat, j: nat | i != j && IsNamed(slots, i) && IsNamed(slots, j)
        ensures CallOf(i, slots[i]).id != CallOf(j, slots[j]).id
      {
        if slots[i].id == "" && slots[j].id == "" {
          SyntheticIdsDiffer(i, j, slots[i], slots[j]);
        }
      }
    }
    if CallIdsDiffer(slots) {
      forall i: nat, j: nat | i != j && IsNamed(slots, i) && IsNamed(slots, j) && slots[i].id != ""
        ensures slots[i].id != if slots[j].id == "" then "call_" + Digits(j) else slots[j].id
      {
        assert CallOf(i, slots[i]).id != CallOf(j, slots[j]).id;
      }
    }
  }

  /** Fragments reordered across indices, each index keeping its own order. */
  ghost predicate SamePerIndex(a: seq<Fragment>, b: seq<Fragment>) {
    forall i: nat :: Own(a, i) == Own(b, i)
  }

  lemma {:induction false} CountIsWitnessed(fragments: seq<Fragment>)
    ensures SlotCount(fragments) > 0 ==> Own(fragments, SlotCount(fragments) - 1) != []
    decreases |fragments|
  {
    if fragments != [] {
      var front, f := fragments[..|fragments| - 1], fragments[|fragments| - 1];
      CountIsWitnessed(front);
      assert fragments == front + [f];
      OwnAppends(front, f, SlotCount(fragments) - 1);
    }
  }

  lemma SameCount(a: seq<Fragment>, b: seq<Fragment>)
    requires SamePerIndex(a, b)
    ensures SlotCount(a) <= SlotCount(b)
  {
    CountIsWitnessed(a);
    if SlotCount(a) > SlotCount(b) {
      NoOwnBeyond(b, SlotCount(a) - 1);
    }
  }

  /** Any reordering of the fragments that keeps each index's own order gives the same list of calls. */
  lemma OrderAcrossIndicesDoesNotMatter(a: seq<Fragment>, b: seq<Fragment>)
    requires SamePerIndex(a, b)
    ensures Finish(Slots(a)) == Finish(Slots(b))
  {
    SameCount(a, b);
    SameCount(b, a);
    assert Slots(a) == Slots(b);
  }
}

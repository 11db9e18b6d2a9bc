/**
 * The FAQ editor's list operations (AdminDashboard.js lines 745 and
 * 762-771): adding a placeholder question under a fresh id one above the
 * largest id in use, and deleting the question at a position. Both build a
 * new list that handleInputChange then stores under `questions`.
 */
module Faq {
  import opened Outcomes
  import opened ContentTree

  /**
   * `q.id || 0`: a numeric id counts as itself; an item with no id, a
   * falsy id, or an item that is not an object counts as 0.
   */
  function IdOf(item: Value): int {
    if item.Obj? && "id" in item.fields && item.fields["id"].Num? then item.fields["id"].n else 0
  }

  /** `Math.max(...items.map(q => q.id || 0))`: the largest id, which some item has. */
  function MaxId(items: seq<Value>): (m: int)
    requires |items| > 0
    ensures forall k :: 0 <= k < |items| ==> IdOf(items[k]) <= m
    ensures exists k :: 0 <= k < |items| && IdOf(items[k]) == m
    decreases |items|
  {
    if |items| == 1 then IdOf(items[0])
    else
      var front := items[..|items| - 1];
      var rest := MaxId(front);
      var last := IdOf(items[|items| - 1]);
      assert forall k :: 0 <= k < |front| ==> front[k] == items[k];
      if last > rest then last else rest
  }

  /**
   * The id the next question receives: one above the largest id in use,
   * 1 for an empty list. It is above every id in use and, for a non-empty
   * list, exactly one above some id in use.
   */
  function NextFaqId(items: seq<Value>): (r: int)
    ensures forall k :: 0 <= k < |items| ==> IdOf(items[k]) < r
    ensures items == [] ==> r == 1
    ensures items != [] ==> exists k :: 0 <= k < |items| && IdOf(items[k]) == r - 1
  {
    if |items| > 0 then MaxId(items) + 1 else 1
  }

  /** The placeholder question that Add New Question appends. */
  function NewFaqItem(id: int): Value {
    Obj(map["id" := Num(id), "question" := Str("Pertanyaan baru"), "answer" := Str("Jawaban baru")])
  }

  /**
   * The list after Add New Question: the old items, unchanged and in order,
   * then one placeholder whose id no old item has.
   */
  function WithNewQuestion(items: seq<Value>): (r: seq<Value>)
    ensures |r| == |items| + 1 && r[..|items|] == items
    ensures r[|items|] == NewFaqItem(NextFaqId(items))
    ensures forall k :: 0 <= k < |items| ==> IdOf(items[k]) < IdOf(r[|items|])
  {
    var r := items + [NewFaqItem(NextFaqId(items))];
    assert r[..|items|] == items;
    r
  }

  /**
   * `items.filter((_, i) => i !== index)`: for a position in the list, the
   * list with that one element removed and the others shifted down by one
   * in their order; for any other number, the list as it was.
   */
  function WithoutQuestion(items: seq<Value>, index: int): (r: seq<Value>)
    ensures 0 <= index < |items| ==>
              && |r| == |items| - 1
              && (forall k :: 0 <= k < index ==> r[k] == items[k])
              && (forall k :: index <= k < |r| ==> r[k] == items[k + 1])
    ensures !(0 <= index < |items|) ==> r == items
    decreases |items|
  {
    if items == [] then []
    else if index == 0 then items[1..]
    else
      var rest := WithoutQuestion(items[1..], index - 1);
      assert [items[0]] + items[1..] == items;
      [items[0]] + rest
  }

  /** Deleting one position keeps every other question. */
  lemma {:induction false} DeleteKeepsOthers(items: seq<Value>, index: nat)
    requires index < |items|
    ensures forall k :: 0 <= k < |items| && k != index ==>
              items[k] in WithoutQuestion(items, index)
  {
    var r := WithoutQuestion(items, index);
    forall k | 0 <= k < |items| && k != index
      ensures items[k] in r
    {
      if k < index {
        assert r[k] == items[k];
      } else {
        assert r[k - 1] == items[k];
      }
    }
  }

  /**
   * The items the add handler starts from, `[...(current.questions || [])]`,
   * or None where spreading throws. A missing or falsy `questions` gives the
   * empty list; an array gives its elements; a non-empty string spreads into
   * its characters; a number or object cannot be spread.
   */
  function FaqItems(current: Value): (r: Option<seq<Value>>)
    ensures current.Obj? && "questions" in current.fields && current.fields["questions"].Arr? ==>
              r == Some(current.fields["questions"].items)
    ensures !current.Obj? || "questions" !in current.fields ==> r == Some([])
  {
    if !current.Obj? || "questions" !in current.fields then Some([])
    else
      var q := current.fields["questions"];
      if !Truthy(q) then Some([])
      else
        match q
        case Arr(items) => Some(items)
        case Str(s) => Some(seq(|s|, i requires 0 <= i < |s| => Str([s[i]])))
        case _ => None
  }

  /**
   * The list the delete buttons are drawn for: `current.questions` when it
   * is a non-empty array (AdminDashboard.js line 715); None when no delete
   * button is shown.
   */
  function ShownFaqList(current: Value): (r: Option<seq<Value>>)
    ensures r.Some? ==> |r.value| > 0 && FaqItems(current) == r
  {
    if current.Obj? && "questions" in current.fields && current.fields["questions"].Arr?
       && |current.fields["questions"].items| > 0
    then Some(current.fields["questions"].items)
    else None
  }
}

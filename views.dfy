/** The view switch button: each click moves the planner to the next of its three views. */
module Views {
  /** The views in the order the button cycles through them. */
  const ViewOrder: seq<string> := ["timeline", "blocks", "list"]

  /** `Array.prototype.indexOf`: the first position of x in s, or -1 when x does not occur. */
  function IndexOf(s: seq<string>, x: string): (i: int)
    ensures -1 <= i < |s|
    ensures i >= 0 ==> s[i] == x && forall j :: 0 <= j < i ==> s[j] != x
    ensures i == -1 ==> x !in s
  {
    if s == [] then -1
    else if s[0] == x then 0
    else
      var i := IndexOf(s[1..], x);
      if i == -1 then -1 else i + 1
  }

  /** The state update of the button: the view after `prev`, wrapping round at the end. */
  function NextView(prev: string): (next: string)
    ensures next in ViewOrder
  {
    ViewOrder[(IndexOf(ViewOrder, prev) + 1) % |ViewOrder|]
  }

  /** Three clicks come back to the view one started from, and every click changes it. */
  lemma ViewCycle(v: string)
    requires v in ViewOrder
    ensures NextView(v) != v
    ensures NextView(NextView(NextView(v))) == v
  {
    assert NextView("timeline") == "blocks" by {
      assert IndexOf(ViewOrder, "timeline") == 0;
    }
    assert NextView("blocks") == "list" by {
      assert IndexOf(ViewOrder, "blocks") == 1;
    }
    assert NextView("list") == "timeline" by {
      assert IndexOf(ViewOrder, "list") == 2;
    }
  }

  /** A view name the list does not hold (index -1) leads to the first view. */
  lemma UnknownViewResets(v: string)
    requires v !in ViewOrder
    ensures NextView(v) == "timeline"
  {
  }
}

/** The FAQ accordion (src/components/Faqs.jsx): a single optional index
    says which answer is open, and a click on a question toggles it. */
module Faqs {
  import opened Common

  /** The number of questions on the page. */
  const FaqCount := 6

  /** `openFaq`: the index of the open answer, if any. */
  type OpenFaq = Option<nat>

  /** Nothing is open when the page loads. */
  const InitialFaq: OpenFaq := None

  /** The answer of question `j` is rendered. */
  predicate Shown(open: OpenFaq, j: nat) {
    open == Some(j)
  }

  /** `toggleFaq(i)`: a click on question `i` flips its answer and closes
      every other one. */
  function Toggle(open: OpenFaq, i: nat): (r: OpenFaq)
    ensures Shown(r, i) <==> !Shown(open, i)
    ensures forall j :: j != i ==> !Shown(r, j)
  {
    if open == Some(i) then None else Some(i)
  }

  /** The questions whose answer is rendered: never more than one, and none
      exactly when nothing on the page is open. */
  function OpenAnswers(open: OpenFaq): (r: set<nat>)
    ensures |r| <= 1
    ensures r == {} <==> open.None? || open.value >= FaqCount
    ensures forall j: nat :: j in r <==> j < FaqCount && Shown(open, j)
  {
    var r := set j: nat | j < FaqCount && Shown(open, j);
    if open.Some? && open.value < FaqCount then
      assert r == {open.value};
      r
    else
      assert r == {};
      r
  }

  /** Nothing is rendered initially. */
  lemma InitiallyNothingShown()
    ensures OpenAnswers(InitialFaq) == {}
  {
  }

  /** After any click on a question of the page, exactly that question's
      answer or nothing is rendered. */
  lemma ClickLeavesAtMostTheClickedAnswer(open: OpenFaq, i: nat)
    requires i < FaqCount
    ensures OpenAnswers(Toggle(open, i)) == (if Shown(open, i) then {} else {i})
  {
  }

  /** Clicking the same question twice restores the page when that question
      was the open one or nothing was open. */
  lemma ToggleTwiceRestores(open: OpenFaq, i: nat)
    requires open.None? || open == Some(i)
    ensures Toggle(Toggle(open, i), i) == open
  {
  }

  /** From another open answer, two clicks on question 1 close everything
      rather than bringing answer 0 back. */
  lemma ToggleTwiceFromOtherClosesAll()
    ensures Toggle(Toggle(Some(0), 1), 1) == None
  {
  }
}

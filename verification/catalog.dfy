/** The study items behind the tutorial cards, and the choice of which of them are shown. */
module Catalog {
  import opened Sequences

  /** One learning resource of the static catalog; starting a timer session borrows one. */
  datatype StudyItem = StudyItem(
    id: int,
    title: string,
    description: string,
    tag: string,
    url: string,
    visible: bool)

  predicate IsShown(item: StudyItem) {
    item.visible
  }

  /** The items rendered as cards: exactly the visible ones, in catalog order. */
  function VisibleTutorials(items: seq<StudyItem>): (r: seq<StudyItem>)
    ensures IsSubsequence(r, items)
    ensures forall x :: x in r <==> x in items && x.visible
    ensures forall x :: multiset(r)[x] == (if x.visible then multiset(items)[x] else 0)
  {
    FilterIsSubsequence(items, IsShown);
    FilterCounts(items, IsShown);
    Filter(items, IsShown)
  }
}

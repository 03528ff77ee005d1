/**
  The certifications timeline: the certifications newest first (sorted on a
  copy of the list), each item's status colour, connecting line and expiry
  text, and the set of items revealed so far.
 */
module CertificationTimeline {
  import opened Wrappers
  import opened JsArray
  import opened JsSort
  import opened ContentSchema
  import CertificationGrid

  /** `(a, b) => b.issueDate - a.issueDate`: later issue dates first. */
  function NewestFirst(): (Certification, Certification) -> int {
    (a: Certification, b: Certification) => b.issueDate - a.issueDate
  }

  lemma NewestFirstConsistent()
    ensures Consistent(NewestFirst())
  {
  }

  /** The timeline's order: `[...certifications].sort(NewestFirst)`. */
  function SortedCertifications(certs: seq<Certification>): (r: seq<Certification>)
    ensures |r| == |certs|
  {
    SortedByPermutation(certs, NewestFirst());
    var r := SortedBy(certs, NewestFirst());
    assert |r| == |multiset(r)| == |multiset(certs)| == |certs|;
    r
  }

  /**
    The timeline holds the same certifications, each as often as listed,
    newest first, and those issued at the same instant in list order.
   */
  lemma SortedCertificationsSpec(certs: seq<Certification>, x: Certification)
    ensures multiset(SortedCertifications(certs)) == multiset(certs)
    ensures forall i, j :: 0 <= i < j < |SortedCertifications(certs)| ==>
      SortedCertifications(certs)[i].issueDate >= SortedCertifications(certs)[j].issueDate
    ensures Ties(SortedCertifications(certs), x, NewestFirst()) == Ties(certs, x, NewestFirst())
  {
    NewestFirstConsistent();
    SortedByPermutation(certs, NewestFirst());
    SortedBySorted(certs, NewestFirst());
    SortedByStable(certs, x, NewestFirst());
    var r := SortedCertifications(certs);
    forall i, j | 0 <= i < j < |r| ensures r[i].issueDate >= r[j].issueDate {
      assert NewestFirst()(r[i], r[j]) <= 0;
    }
  }

  /** Certifications issued at the same instant are exactly those the comparator ties. */
  lemma TiesAreSameIssueDate(x: Certification, c: Certification)
    ensures TieWith(x, NewestFirst())(c) <==> c.issueDate == x.issueDate
  {
  }

  /**
    The spread copy and the in-place sort: the sorted array is a new array,
    and the certifications array handed to the component is left as it was.
   */
  method SortedCopy(certifications: array<Certification>) returns (sorted: array<Certification>)
    ensures fresh(sorted)
    ensures sorted[..] == SortedCertifications(certifications[..])
  {
    sorted := new Certification[certifications.Length](i requires 0 <= i < certifications.Length reads certifications
      => certifications[i]);
    assert sorted[..] == certifications[..];
    SortInPlace(sorted, NewestFirst());
  }

  /** The timeline's own `getStatusColor`. */
  function StatusColor(c: Certification): string {
    if c.isExpired then "expired" else if c.daysUntilExpiry <= 90 then "expiring-soon" else "active"
  }

  /** The timeline colours a certification exactly as the grid does. */
  lemma SameStatusAsGrid(c: Certification)
    ensures StatusColor(c) == CertificationGrid.StatusClass(CertificationGrid.StatusOf(c))
  {
  }

  /** Only the first nine items draw the line down to the next one. */
  const LineItems := 9

  /** One item of the timeline. */
  datatype Item = Item(cert: Certification, index: nat, statusColor: string, hasLine: bool, isVisible: bool)

  /** The items for the sorted certifications; `idOf` gives a certification's document id. */
  function Items(certs: seq<Certification>, visible: set<string>, idOf: Certification -> string): (r: seq<Item>)
    ensures |r| == |certs|
    ensures forall i :: 0 <= i < |r| ==>
      r[i].cert == SortedCertifications(certs)[i] && r[i].index == i
      && r[i].statusColor == CertificationGrid.StatusClass(CertificationGrid.StatusOf(r[i].cert))
      && (r[i].hasLine <==> i < 9)
      && (r[i].isVisible <==> idOf(r[i].cert) in visible)
  {
    var sorted := SortedCertifications(certs);
    seq(|sorted|, i requires 0 <= i < |sorted| => MakeItem(sorted[i], i, idOf(sorted[i]) in visible))
  }

  /** The item at position `index`. */
  function MakeItem(c: Certification, index: nat, isVisible: bool): (r: Item)
    ensures r.statusColor == CertificationGrid.StatusClass(CertificationGrid.StatusOf(c))
  {
    SameStatusAsGrid(c);
    Item(c, index, StatusColor(c), index < LineItems, isVisible)
  }

  /** The lines drawn: one per item for the first `min(9, n)` items, none after. */
  lemma LinesDrawn(certs: seq<Certification>, visible: set<string>, idOf: Certification -> string)
    ensures |Filter(Items(certs, visible, idOf), (it: Item) => it.hasLine)| == if |certs| < 9 then |certs| else 9
  {
    var r := Items(certs, visible, idOf);
    var k := if |certs| < 9 then |certs| else 9;
    assert r == r[..k] + r[k..];
    FilterAppend(r[..k], r[k..], (it: Item) => it.hasLine);
    FilterAll(r[..k], (it: Item) => it.hasLine);
    FilterNone(r[k..], (it: Item) => it.hasLine);
  }

  /** The word before an expiry date, shown only when there is one. */
  function ExpiryWord(c: Certification): Option<string> {
    if c.expiryDate.Some? then Some(if c.isExpired then "Expired" else "Expires") else None
  }

  /** The expiry text reads "Expired" exactly for expired certifications, and is absent without a date. */
  lemma ExpiryWordSpec(c: Certification, now: int)
    requires CertificationGrid.ExpiryComputed(c, now)
    ensures ExpiryWord(c).None? <==> c.expiryDate.None?
    ensures ExpiryWord(c) == Some("Expired") <==> c.expiryDate.Some? && c.expiryDate.value < now
  {
  }

  /** The ids of the items revealed so far. */
  class TimelineState {
    var visibleItems: set<string>

    constructor()
      ensures visibleItems == {}
    {
      visibleItems := {};
    }

    /** `handleItemVisible`: the id is added; nothing is ever removed, and adding it again changes nothing. */
    method HandleItemVisible(id: string)
      modifies this
      ensures visibleItems == old(visibleItems) + {id}
      ensures old(visibleItems) <= visibleItems && id in visibleItems
      ensures id in old(visibleItems) ==> visibleItems == old(visibleItems)
    {
      visibleItems := visibleItems + {id};
    }
  }
}

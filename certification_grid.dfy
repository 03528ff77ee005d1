/**
  The certifications grid: each card's status (colour class and badge
  label, derived from the build-time expiry fields), the issuer buttons with
  their counts, the issuer filter the selected button applies, and the
  skills preview on each card.
 */
module CertificationGrid {
  import opened Wrappers
  import opened JsString
  import opened JsMath
  import opened JsArray
  import opened ContentSchema

  /* ---------- status ---------- */

  datatype Status = Expired | ExpiringSoon | Active

  /** Certifications expiring within this many days are flagged for renewal. */
  const RenewWithinDays := 90

  /** `getStatusColor`. */
  function StatusOf(c: Certification): Status {
    if c.isExpired then Expired
    else if c.daysUntilExpiry <= RenewWithinDays then ExpiringSoon
    else Active
  }

  /** The CSS class a status selects. */
  function StatusClass(s: Status): (r: string)
    ensures r == "expired" || r == "expiring-soon" || r == "active"
  {
    match s
    case Expired => "expired"
    case ExpiringSoon => "expiring-soon"
    case Active => "active"
  }

  /** The label each status goes with. */
  function LabelOf(s: Status): string {
    match s
    case Expired => "Expired"
    case ExpiringSoon => "Renew Soon"
    case Active => "Active"
  }

  /** The status badge's text, computed by the card from the fields itself. */
  function StatusLabel(c: Certification): string {
    if c.isExpired then "Expired" else if c.daysUntilExpiry <= 90 then "Renew Soon" else "Active"
  }

  /** The badge's label always names the badge's colour class, and different statuses look different. */
  lemma LabelMatchesStatus(c: Certification, s: Status, t: Status)
    ensures StatusLabel(c) == LabelOf(StatusOf(c))
    ensures s != t ==> LabelOf(s) != LabelOf(t) && StatusClass(s) != StatusClass(t)
  {
  }

  /** The expiry fields of `c` are the ones computed from its expiry date at build time `now`. */
  ghost predicate ExpiryComputed(c: Certification, now: int) {
    c.isExpired == IsExpired(c.expiryDate, now) && c.daysUntilExpiry == DaysUntilExpiry(c.expiryDate, now)
  }

  /** Every parsed certification carries expiry fields computed at the build time. */
  lemma ParsedExpiryComputed(doc: RawDocument, now: int)
    requires ParseCertification(doc, now).Success?
    ensures ExpiryComputed(ParseCertification(doc, now).value, now)
  {
  }

  /**
    In terms of the expiry date: expired iff it has passed; active iff more
    than ninety whole days remain; otherwise (in particular with no expiry
    date at all, through the -1 sentinel) flagged "Renew Soon".
   */
  lemma StatusByExpiry(c: Certification, now: int)
    requires ExpiryComputed(c, now)
    ensures StatusOf(c) == Expired <==> c.expiryDate.Some? && c.expiryDate.value < now
    ensures StatusOf(c) == Active <==> c.expiryDate.Some? && c.expiryDate.value - now > RenewWithinDays * MsPerDay
    ensures c.expiryDate.None? ==> StatusOf(c) == ExpiringSoon && StatusLabel(c) == "Renew Soon"
  {
    if c.expiryDate.Some? {
      var d := c.expiryDate.value - now;
      var r := c.daysUntilExpiry;
      assert (r - 1) * MsPerDay < d <= r * MsPerDay;
      if r > RenewWithinDays {
        assert (r - 1) * MsPerDay >= RenewWithinDays * MsPerDay;
      }
      if d > RenewWithinDays * MsPerDay {
        assert r * MsPerDay > RenewWithinDays * MsPerDay;
      }
    }
  }

  /** The label before the expiry date, shown only when there is an expiry date. */
  function ExpiryLabel(c: Certification): Option<string> {
    if c.expiryDate.Some? then Some(if c.isExpired then "Expired:" else "Expires:") else None
  }

  /** The expiry line reads "Expired:" exactly for expired certifications. */
  lemma ExpiryLabelSpec(c: Certification, now: int)
    requires ExpiryComputed(c, now)
    ensures ExpiryLabel(c).None? <==> c.expiryDate.None?
    ensures ExpiryLabel(c) == Some("Expired:") <==> StatusOf(c) == Expired
  {
  }

  /* ---------- issuers ---------- */

  function Issuers(certs: seq<Certification>): (r: seq<string>)
    ensures |r| == |certs| && forall i :: 0 <= i < |r| ==> r[i] == certs[i].issuer
  {
    if certs == [] then [] else [certs[0].issuer] + Issuers(certs[1..])
  }

  /** `Array.from(new Set(certifications.map(cert => cert.issuer)))`. */
  function Categories(certs: seq<Certification>): seq<string> {
    Distinct(Issuers(certs))
  }

  /** One button per issuer, each once, in order of the issuer's first certification. */
  lemma CategoriesSpec(certs: seq<Certification>)
    ensures NoDup(Categories(certs))
    ensures forall s :: s in Categories(certs) <==> exists i :: 0 <= i < |certs| && certs[i].issuer == s
    ensures forall i, j :: 0 <= i < j < |Categories(certs)| ==>
      FirstIndex(Issuers(certs), Categories(certs)[i]) < FirstIndex(Issuers(certs), Categories(certs)[j])
  {
    forall i, j | 0 <= i < j < |Categories(certs)|
      ensures FirstIndex(Issuers(certs), Categories(certs)[i]) < FirstIndex(Issuers(certs), Categories(certs)[j])
    {
      DistinctOrder(Issuers(certs), i, j);
    }
  }

  function IssuerIs(issuer: string): Certification -> bool {
    (c: Certification) => c.issuer == issuer
  }

  /** The certifications shown for the selected button. */
  function FilteredCertifications(certs: seq<Certification>, selected: string): seq<Certification> {
    if selected == "all" then certs else Filter(certs, IssuerIs(selected))
  }

  /**
    `all` shows everything; another selection shows exactly that issuer's
    certifications, each as often as listed, in list order.
   */
  lemma FilteredSpec(certs: seq<Certification>, more: seq<Certification>, selected: string)
    ensures selected == "all" ==> FilteredCertifications(certs, selected) == certs
    ensures selected != "all" ==>
      forall c :: multiset(FilteredCertifications(certs, selected))[c] == (if c.issuer == selected then multiset(certs)[c] else 0)
    ensures FilteredCertifications(certs + more, selected)
      == FilteredCertifications(certs, selected) + FilteredCertifications(more, selected)
  {
    FilterMultiset(certs, IssuerIs(selected));
    FilterAppend(certs, more, IssuerIs(selected));
  }

  /** `filteredCertifications.length === 0`: the "No certifications found" block. */
  predicate ShowsNoResults(certs: seq<Certification>, selected: string) {
    |FilteredCertifications(certs, selected)| == 0
  }

  /**
    The "No certifications found" block shows iff nothing matches the
    selection: for `all`, iff the list is empty; for an issuer, iff no listed
    certification has it. An issuer's own button therefore never shows it.
   */
  lemma NoResultsIff(certs: seq<Certification>, selected: string)
    ensures selected == "all" ==> (ShowsNoResults(certs, selected) <==> certs == [])
    ensures selected != "all" ==>
      (ShowsNoResults(certs, selected) <==> forall i :: 0 <= i < |certs| ==> certs[i].issuer != selected)
    ensures selected in Categories(certs) ==> !ShowsNoResults(certs, selected)
  {
    if selected in Categories(certs) {
      assert selected in Issuers(certs);
      var i :| 0 <= i < |certs| && Issuers(certs)[i] == selected;
      assert certs[i] in FilteredCertifications(certs, selected);
    }
    if selected != "all" && exists i :: 0 <= i < |certs| && certs[i].issuer == selected {
      var i :| 0 <= i < |certs| && certs[i].issuer == selected;
      assert certs[i] in FilteredCertifications(certs, selected);
    }
  }

  /** The count on an issuer's button. */
  function IssuerCount(certs: seq<Certification>, issuer: string): nat {
    CountIf(certs, IssuerIs(issuer))
  }

  /** The counts on the buttons for `issuers`, added up. */
  function CountsTotal(certs: seq<Certification>, issuers: seq<string>): nat {
    if issuers == [] then 0 else IssuerCount(certs, issuers[0]) + CountsTotal(certs, issuers[1..])
  }

  /** Adding one certification adds one to the total for each time its issuer is listed. */
  lemma {:induction false} CountsTotalCons(c: Certification, rest: seq<Certification>, issuers: seq<string>)
    ensures CountsTotal([c] + rest, issuers) == multiset(issuers)[c.issuer] + CountsTotal(rest, issuers)
  {
    if issuers != [] {
      CountsTotalCons(c, rest, issuers[1..]);
      assert issuers == [issuers[0]] + issuers[1..];
      assert ([c] + rest)[1..] == rest;
    }
  }

  /** Counting per issuer over a duplicate-free list holding every issuer counts each certification once. */
  lemma {:induction false} CountsTotalCovers(certs: seq<Certification>, issuers: seq<string>)
    requires NoDup(issuers)
    requires forall i :: 0 <= i < |certs| ==> certs[i].issuer in issuers
    ensures CountsTotal(certs, issuers) == |certs|
  {
    if certs == [] {
      CountsTotalEmpty(issuers);
    } else {
      CountsTotalCovers(certs[1..], issuers);
      CountsTotalCons(certs[0], certs[1..], issuers);
      assert certs == [certs[0]] + certs[1..];
      NoDupMultiset(issuers);
      assert multiset(issuers)[certs[0].issuer] == 1;
    }
  }

  lemma {:induction false} CountsTotalEmpty(issuers: seq<string>)
    ensures CountsTotal([], issuers) == 0
  {
    if issuers != [] {
      CountsTotalEmpty(issuers[1..]);
    }
  }

  /** The issuer buttons' counts add up to the count on the "All Certifications" button. */
  lemma IssuerCountsSumToTotal(certs: seq<Certification>)
    ensures CountsTotal(certs, Categories(certs)) == |certs|
  {
    forall i | 0 <= i < |certs| ensures certs[i].issuer in Categories(certs) {
      assert Issuers(certs)[i] == certs[i].issuer;
    }
    CountsTotalCovers(certs, Categories(certs));
  }

  /* ---------- skills preview ---------- */

  /** How many skills a card lists before summarising the rest. */
  const PreviewSkills := 4

  /** A card's skills preview: the chips shown and the "+n more" text, if any. */
  datatype SkillsPreview = SkillsPreview(chips: seq<string>, more: Option<string>)

  /** The preview, shown when the certification has at least one skill. */
  function SkillsPreviewOf(skills: Option<seq<string>>): Option<SkillsPreview> {
    if skills.Some? && |skills.value| > 0 then
      var n := |skills.value|;
      var shown := if n < PreviewSkills then n else PreviewSkills;
      Some(SkillsPreview(skills.value[..shown],
        if n > PreviewSkills then Some("+" + Decimal(n - PreviewSkills) + " more") else None))
    else None
  }

  /**
    The preview lists the first `min(4, n)` skills and adds "+k more" iff
    some are left out, where `k`, read back from the text, is the number
    left out.
   */
  lemma SkillsPreviewSpec(skills: Option<seq<string>>)
    ensures SkillsPreviewOf(skills).None? <==> skills.None? || skills.value == []
    ensures SkillsPreviewOf(skills).Some? ==>
      var p := SkillsPreviewOf(skills).value;
      var n := |skills.value|;
      && p.chips == skills.value[..|p.chips|]
      && |p.chips| == (if n < 4 then n else 4)
      && (p.more.Some? <==> n > 4)
      && (p.more.Some? ==>
            |p.more.value| > 1 && p.more.value[0] == '+' && ParseInt(p.more.value[1..]) == Int(n - |p.chips|))
  {
    if SkillsPreviewOf(skills).Some? {
      var p := SkillsPreviewOf(skills).value;
      var n := |skills.value|;
      var shown := if n < 4 then n else 4;
      assert p.chips == skills.value[..shown];
      if n > 4 {
        MoreText(n - 4);
        assert p.more.value == "+" + Decimal(n - 4) + " more";
      } else {
        assert p.more.None?;
      }
    }
  }

  /** The "+k more" text reads back as `k`. */
  lemma MoreText(k: nat)
    ensures var text := "+" + Decimal(k) + " more";
      |text| > 1 && text[0] == '+' && ParseInt(text[1..]) == Int(k)
  {
    var d := Decimal(k);
    var rest := d + " more";
    var text := "+" + d + " more";
    assert text == ['+'] + rest;
    assert text[1..] == rest;
    assert " more"[0] == ' ';
    ParseIntDecimal(k, " more");
  }

  /* ---------- the selected button ---------- */

  /** The grid's state: the selected issuer button, `all` to begin with. */
  class GridState {
    var selectedCategory: string

    constructor()
      ensures selectedCategory == "all"
    {
      selectedCategory := "all";
    }

    /** A button press (`setSelectedCategory`). */
    method Select(category: string)
      modifies this
      ensures selectedCategory == category
    {
      selectedCategory := category;
    }

    /** The cards shown for the current selection. */
    function Visible(certs: seq<Certification>): (r: seq<Certification>)
      reads this
      ensures selectedCategory == "all" ==> r == certs
      ensures selectedCategory != "all" ==> forall c :: c in r <==> c in certs && c.issuer == selectedCategory
    {
      FilteredCertifications(certs, selectedCategory)
    }
  }
}
